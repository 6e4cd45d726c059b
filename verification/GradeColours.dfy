/**
 What the colours of a profile mean (frontend/profile.js): how a broken line rises between two distances
 when the slopes between its vertices are known, and which band that is on the chart and on the map.
 */
module GradeColours {
  import opened Common
  import opened ElevationProfile
  import opened GradeBands

  // ------------------------------------------------------------------ slopes between vertices

  /** The k-th part of the line has something of the stretch: more than a point, or a step at a point of it. */
  predicate Touches(cum: seq<real>, k: nat, x: real, y: real)
    requires k + 1 < |cum|
  {
    if cum[k] < cum[k + 1] then cum[k] < y && x < cum[k + 1] else x <= cum[k] <= y
  }

  /** Each part of the line within the stretch rises at least by this grade. */
  ghost predicate RisesBy(cum: seq<real>, values: seq<real>, x: real, y: real, g: real)
    requires |cum| == |values|
  {
    forall k: nat :: k + 1 < |cum| && Touches(cum, k, x, y) ==> values[k + 1] - values[k] >= Rise(g, cum[k + 1] - cum[k])
  }

  /** What a grade rises over a distance. */
  function Rise(g: real, far: real): real {
    g * far
  }

  lemma Scales(g: real, slope: real, a: real)
    requires slope >= g && a >= 0.0
    ensures slope * a >= Rise(g, a)
  {
    var more := slope - g;
    assert more * a >= 0.0;
    assert slope * a == g * a + more * a;
  }

  lemma SlopeAtLeast(g: real, rise: real, b: real)
    requires b > 0.0 && rise >= Rise(g, b)
    ensures rise / b >= g
  {
    var slope := rise / b;
    assert slope * b == rise;
    if slope < g {
      assert (g - slope) * b > 0.0;
    }
  }

  lemma BlendIsSlope(v: real, w: real, a: real, b: real)
    requires b > 0.0
    ensures Blend(v, w, a, b) == v + (w - v) / b * a
  {
    var rise := w - v;
    var slope := rise / b;
    assert slope * b == rise;
    var share := rise * a / b;
    assert share * b == rise * a;
    assert rise * a == slope * a * b by { Reordered(slope, b, a); }
    SameQuotient(share, slope * a, b);
  }

  lemma Reordered(x: real, y: real, z: real)
    ensures x * y * z == x * z * y
  {
  }

  lemma SameQuotient(x: real, y: real, b: real)
    requires b > 0.0 && x * b == y * b
    ensures x == y
  {
    if x < y {
      LargerProduct(x, y, b);
    } else if x > y {
      LargerProduct(y, x, b);
    }
  }

  lemma LargerProduct(x: real, y: real, b: real)
    requires b > 0.0 && x < y
    ensures x * b < y * b
  {
    assert (y - x) * b > 0.0;
  }

  /** Along one part of the line, from share `a` to share `c` of its length `b`. */
  lemma PartRises(v: real, w: real, a: real, c: real, b: real, g: real)
    requires 0.0 <= a <= c <= b && b > 0.0 && w - v >= Rise(g, b)
    ensures Blend(v, w, c, b) - Blend(v, w, a, b) >= Rise(g, c - a)
  {
    hide Blend;
    BlendIsSlope(v, w, a, b);
    BlendIsSlope(v, w, c, b);
    SlopeAtLeast(g, w - v, b);
    var slope := (w - v) / b;
    Scales(g, slope, c - a);
    assert slope * c - slope * a == slope * (c - a);
  }

  lemma BlendEnds(v: real, w: real, b: real)
    requires b > 0.0
    ensures Blend(v, w, b, b) == w && Blend(v, w, 0.0, b) == v
  {
    BlendStarts(v, w, b);
    var rise := (w - v) * b;
    var share := rise / b;
    assert share * b == rise;
    SameQuotient(share, w - v, b);
  }

  lemma PartRisesFromStart(v: real, w: real, c: real, b: real, g: real)
    requires 0.0 <= c <= b && b > 0.0 && w - v >= Rise(g, b)
    ensures Blend(v, w, c, b) - v >= Rise(g, c)
  {
    hide Blend, Rise;
    PartRises(v, w, 0.0, c, b, g);
    BlendEnds(v, w, b);
    assert c - 0.0 == c;
  }

  /** Each of these parts rises by the grade. */
  ghost predicate PartsRise(cum: seq<real>, values: seq<real>, a: nat, b: nat, g: real)
    requires |cum| == |values| && b < |cum|
  {
    forall k: nat :: a <= k < b ==> values[k + 1] - values[k] >= Rise(g, cum[k + 1] - cum[k])
  }

  lemma {:induction false} VerticesRise(cum: seq<real>, values: seq<real>, a: nat, b: nat, g: real)
    requires |cum| == |values| && a <= b < |cum| && PartsRise(cum, values, a, b, g)
    ensures values[b] - values[a] >= Rise(g, cum[b] - cum[a])
    decreases b
  {
    if a < b {
      VerticesRise(cum, values, a, b - 1, g);
      Adds(g, cum[b] - cum[b - 1], cum[b - 1] - cum[a]);
    } else {
      NoRise(g, cum[b] - cum[a]);
    }
  }

  lemma Adds(g: real, a: real, b: real)
    ensures Rise(g, a) + Rise(g, b) == Rise(g, a + b)
  {
  }

  /** The last vertex no farther than this. */
  lemma {:induction false} VertexAt(cum: seq<real>, d: real) returns (k: nat)
    requires cum != [] && cum[0] <= d < cum[|cum| - 1]
    ensures k + 1 < |cum| && cum[k] <= d < cum[k + 1]
    decreases |cum|
  {
    var n := |cum| - 1;
    if cum[n - 1] <= d {
      k := n - 1;
    } else {
      k := VertexAt(cum[..n], d);
    }
  }

  /** From the start of the stretch to a vertex: the first behind it, or where the stretch starts with the line. */
  lemma StartOfStretch(cum: seq<real>, values: seq<real>, x: real, y: real, g: real) returns (s: nat)
    requires |cum| == |values| && cum != [] && Ascending(cum) && cum[0] <= x < y && x < cum[|cum| - 1]
    requires RisesBy(cum, values, x, y, g)
    ensures s < |cum| && cum[s] >= x && values[s] - Line(cum, values, x) >= Rise(g, cum[s] - x)
    ensures s > 0 ==> cum[0] < x && cum[s - 1] <= x < cum[s]
    ensures s == 0 ==> x == cum[0]
  {
    hide VertexBefore, Blend, Line, Rise;
    if x == cum[0] {
      s := 0;
      LineStarts(cum, values);
      NoRise(g, cum[s] - x);
    } else {
      var k := VertexAt(cum, x);
      s := k + 1;
      assert Touches(cum, k, x, y);
      RisesToVertex(cum, values, x, k, g);
    }
  }

  lemma LineStarts(cum: seq<real>, values: seq<real>)
    requires |cum| == |values| > 0
    ensures Line(cum, values, cum[0]) == values[0]
  {
  }

  lemma RisesToVertex(cum: seq<real>, values: seq<real>, x: real, k: nat, g: real)
    requires |cum| == |values| && Ascending(cum) && k + 1 < |cum| && cum[0] < x && cum[k] <= x < cum[k + 1]
    requires values[k + 1] - values[k] >= Rise(g, cum[k + 1] - cum[k])
    ensures values[k + 1] - Line(cum, values, x) >= Rise(g, cum[k + 1] - x)
  {
    hide VertexBefore, Blend, Line, Rise;
    LineAt(cum, values, x, k);
    PartRisesToEnd(values[k], values[k + 1], x - cum[k], cum[k + 1] - cum[k], cum[k + 1] - x, g);
  }

  lemma RisesFromVertex(cum: seq<real>, values: seq<real>, y: real, k: nat, g: real)
    requires |cum| == |values| && Ascending(cum) && k + 1 < |cum| && cum[0] < y && cum[k] <= y < cum[k + 1]
    requires cum[k] < y ==> values[k + 1] - values[k] >= Rise(g, cum[k + 1] - cum[k])
    ensures Line(cum, values, y) - values[k] >= Rise(g, y - cum[k])
  {
    hide VertexBefore, Blend, Line, Rise;
    LineAt(cum, values, y, k);
    if cum[k] < y {
      PartRisesFromStart(values[k], values[k + 1], y - cum[k], cum[k + 1] - cum[k], g);
    } else {
      var a := y - cum[k];
      assert a == 0.0;
      NoRise(g, a);
      BlendStarts(values[k], values[k + 1], cum[k + 1] - cum[k]);
    }
  }

  lemma NoRise(g: real, none: real)
    requires none == 0.0
    ensures Rise(g, none) == 0.0
  {
  }

  lemma PartRisesToEnd(v: real, w: real, a: real, b: real, left: real, g: real)
    requires 0.0 <= a <= b && b > 0.0 && w - v >= Rise(g, b) && left == b - a
    ensures w - Blend(v, w, a, b) >= Rise(g, left)
  {
    hide Blend, Rise;
    PartRises(v, w, a, b, b, g);
    BlendEnds(v, w, b);
  }

  /** From a vertex to the end of the stretch. */
  lemma EndOfStretch(cum: seq<real>, values: seq<real>, x: real, y: real, g: real) returns (l: nat)
    requires |cum| == |values| && cum != [] && Ascending(cum) && cum[0] <= x < y <= cum[|cum| - 1]
    requires RisesBy(cum, values, x, y, g)
    ensures l < |cum| && cum[l] <= y && Line(cum, values, y) - values[l] >= Rise(g, y - cum[l])
    ensures l + 1 < |cum| ==> y < cum[l + 1]
    ensures l + 1 == |cum| ==> y == cum[l]
  {
    hide VertexBefore, Blend, Line, Rise;
    if y == cum[|cum| - 1] {
      l := |cum| - 1;
      LineStops(cum, values);
      NoRise(g, y - cum[l]);
    } else {
      l := VertexAt(cum, y);
      assert cum[l] < y ==> Touches(cum, l, x, y);
      RisesFromVertex(cum, values, y, l, g);
    }
  }

  lemma LineStops(cum: seq<real>, values: seq<real>)
    requires |cum| == |values| > 0 && cum[0] < cum[|cum| - 1]
    ensures Line(cum, values, cum[|cum| - 1]) == values[|cum| - 1]
  {
  }

  /** Main result: a stretch all of whose parts rise at least by a grade rises by that grade at least. */
  lemma StretchRises(cum: seq<real>, values: seq<real>, x: real, y: real, g: real)
    requires |cum| == |values| && cum != [] && Ascending(cum) && cum[0] <= x < y <= cum[|cum| - 1]
    requires RisesBy(cum, values, x, y, g)
    ensures Line(cum, values, y) - Line(cum, values, x) >= Rise(g, y - x)
  {
    hide VertexBefore, Blend, Line, Rise;
    var s := StartOfStretch(cum, values, x, y, g);
    var l := EndOfStretch(cum, values, x, y, g);
    if s <= l {
      forall k: nat | s <= k < l ensures values[k + 1] - values[k] >= Rise(g, cum[k + 1] - cum[k]) {
        assert Touches(cum, k, x, y);
      }
      VerticesRise(cum, values, s, l, g);
      Adds(g, cum[s] - x, cum[l] - cum[s]);
      Adds(g, cum[l] - x, y - cum[l]);
    } else {
      WithinOnePart(cum, values, x, y, g, l);
    }
  }

  lemma WithinOnePart(cum: seq<real>, values: seq<real>, x: real, y: real, g: real, k: nat)
    requires |cum| == |values| && Ascending(cum) && k + 1 < |cum| && cum[0] < x < y && cum[k] <= x && y < cum[k + 1]
    requires RisesBy(cum, values, x, y, g)
    ensures Line(cum, values, y) - Line(cum, values, x) >= Rise(g, y - x)
  {
    hide VertexBefore, Blend, Line, Rise;
    assert Touches(cum, k, x, y);
    LineAt(cum, values, x, k);
    LineAt(cum, values, y, k);
    PartRises(values[k], values[k + 1], x - cum[k], y - cum[k], cum[k + 1] - cum[k], g);
  }

  // ------------------------------------------------------------------ the same downwards

  function Negated(values: seq<real>): (r: seq<real>)
    ensures |r| == |values| && forall i :: 0 <= i < |values| ==> r[i] == -values[i]
  {
    seq(|values|, i requires 0 <= i < |values| => -values[i])
  }

  lemma LineMirrors(cum: seq<real>, values: seq<real>, d: real)
    requires |cum| == |values| > 0
    ensures Line(cum, Negated(values), d) == -Line(cum, values, d)
  {
    hide Blend, Negated;
    if cum[0] < d < cum[|cum| - 1] {
      var k := VertexBefore(cum, d);
      if k + 1 < |cum| && cum[k] < cum[k + 1] {
        BlendMirrors(values[k], values[k + 1], d - cum[k], cum[k + 1] - cum[k]);
      }
    }
  }

  /** Each part of the line within the stretch rises at most by this grade. */
  ghost predicate RisesAtMost(cum: seq<real>, values: seq<real>, x: real, y: real, g: real)
    requires |cum| == |values|
  {
    forall k: nat :: k + 1 < |cum| && Touches(cum, k, x, y) ==> values[k + 1] - values[k] <= Rise(g, cum[k + 1] - cum[k])
  }

  lemma StretchRisesAtMost(cum: seq<real>, values: seq<real>, x: real, y: real, g: real)
    requires |cum| == |values| && cum != [] && Ascending(cum) && cum[0] <= x < y <= cum[|cum| - 1]
    requires RisesAtMost(cum, values, x, y, g)
    ensures Line(cum, values, y) - Line(cum, values, x) <= Rise(g, y - x)
  {
    hide Line, Rise;
    var down := Negated(values);
    forall k: nat | k + 1 < |cum| && Touches(cum, k, x, y) ensures down[k + 1] - down[k] >= Rise(-g, cum[k + 1] - cum[k]) {
      MinusTimes(g, cum[k + 1] - cum[k]);
    }
    StretchRises(cum, down, x, y, -g);
    LineMirrors(cum, values, x);
    LineMirrors(cum, values, y);
    MinusTimes(g, y - x);
  }

  lemma MinusTimes(g: real, a: real)
    ensures Rise(-g, a) == -Rise(g, a)
  {
  }

  // ------------------------------------------------------------------ the colours

  /** The limits of the bands, in per cent, as the legend names them. */
  predicate Encloses(band: Band, percent: real) {
    match band
    case SteepDescent => percent < -8.0
    case Descent => -8.0 <= percent < -3.0
    case Flat => -3.0 <= percent < 3.0
    case Climb => 3.0 <= percent < 6.0
    case SteepClimb => 6.0 <= percent < 10.0
    case VerySteepClimb => 10.0 <= percent
  }

  function WindowStart(mid: real): real {
    if mid < 150.0 then 0.0 else mid - 150.0
  }

  function WindowEnd(p: Profile, mid: real): real
    requires p.cum != []
  {
    if mid + 150.0 > p.Total() then p.Total() else mid + 150.0
  }

  lemma WindowIs(p: Profile, mid: real)
    requires p.Valid() && 0.0 <= mid <= p.Total()
    ensures var lo, hi := WindowStart(mid), WindowEnd(p, mid);
            && 0.0 <= lo && lo + 150.0 <= hi <= p.Total()
            && GradeAround(p, mid) == (Line(p.cum, p.ele, hi) - Line(p.cum, p.ele, lo)) / (hi - lo)
  {
    hide Line;
  }

  lemma QuotientAtMost(rise: real, g: real, b: real)
    requires b > 0.0 && rise <= Rise(g, b)
    ensures rise / b <= g
  {
    var slope := rise / b;
    assert slope * b == rise;
    if slope > g {
      assert (slope - g) * b > 0.0;
    }
  }

  lemma GradeAtLeast(p: Profile, mid: real, g: real)
    requires p.Valid() && 0.0 <= mid <= p.Total()
    requires RisesBy(p.cum, p.ele, WindowStart(mid), WindowEnd(p, mid), g)
    ensures GradeAround(p, mid) >= g
  {
    hide Line, GradeAround, RisesBy, Rise;
    WindowIs(p, mid);
    var lo, hi := WindowStart(mid), WindowEnd(p, mid);
    StretchRises(p.cum, p.ele, lo, hi, g);
    SlopeAtLeast(g, Line(p.cum, p.ele, hi) - Line(p.cum, p.ele, lo), hi - lo);
  }

  lemma GradeAtMost(p: Profile, mid: real, g: real)
    requires p.Valid() && 0.0 <= mid <= p.Total()
    requires RisesAtMost(p.cum, p.ele, WindowStart(mid), WindowEnd(p, mid), g)
    ensures GradeAround(p, mid) <= g
  {
    hide Line, GradeAround, RisesAtMost, Rise;
    WindowIs(p, mid);
    var lo, hi := WindowStart(mid), WindowEnd(p, mid);
    StretchRisesAtMost(p.cum, p.ele, lo, hi, g);
    QuotientAtMost(Line(p.cum, p.ele, hi) - Line(p.cum, p.ele, lo), g, hi - lo);
  }

  /** What a colour at a distance says of the grades within 150 m of it. */
  ghost predicate MeansWhatItSays(p: Profile, mid: real, band: Band)
    requires p.Valid()
  {
    var lo, hi := WindowStart(mid), WindowEnd(p, mid);
    && (forall g :: RisesBy(p.cum, p.ele, lo, hi, g) && RisesAtMost(p.cum, p.ele, lo, hi, g) ==> Encloses(band, 100.0 * g))
    && (RisesBy(p.cum, p.ele, lo, hi, 0.0) ==> band !in {SteepDescent, Descent})
    && (RisesAtMost(p.cum, p.ele, lo, hi, 0.0) ==> band !in {Climb, SteepClimb, VerySteepClimb})
    && (forall g :: RisesBy(p.cum, p.ele, lo, hi, g) && g >= 0.1 ==> band == VerySteepClimb)
    && (forall g :: RisesAtMost(p.cum, p.ele, lo, hi, g) && g < -0.08 ==> band == SteepDescent)
  }

  lemma BandIsRight(p: Profile, mid: real)
    requires p.Valid() && 0.0 <= mid <= p.Total()
    ensures MeansWhatItSays(p, mid, BandAround(p, mid))
  {
    hide GradeAround, RisesBy, RisesAtMost;
    var lo, hi := WindowStart(mid), WindowEnd(p, mid);
    forall g | RisesBy(p.cum, p.ele, lo, hi, g) ensures GradeAround(p, mid) >= g {
      GradeAtLeast(p, mid, g);
    }
    forall g | RisesAtMost(p.cum, p.ele, lo, hi, g) ensures GradeAround(p, mid) <= g {
      GradeAtMost(p, mid, g);
    }
  }

  /**
   Main result: every area of the chart has the colour of the grades around its middle. Where the grade is
   one and the same within 150 m, the band's limits enclose it; where the route never falls there, no
   descent is drawn, and where it never rises, no climb.
   */
  lemma ChartMeansWhatItSays(p: Profile, areas: seq<Area>, i: int)
    requires p.Valid() && IsChart(p, areas) && 0 <= i < |areas|
    ensures MeansWhatItSays(p, (areas[i].a.m + areas[i].b.m) / 2.0, areas[i].band)
  {
    hide BandAround, Line, Round, Sample, MeansWhatItSays;
    assert AreaIs(p, areas[i], i, |areas|);
    MiddleOfRoute(p, i, |areas|);
    BandIsRight(p, (areas[i].a.m + areas[i].b.m) / 2.0);
  }

  /** Main result: so has every run on the map, of the grades around the middle of each of its parts. */
  lemma MapMeansWhatItSays(p: Profile, runs: seq<Run>, cuts: seq<int>, k: int, i: int)
    requires p.Valid()
    requires Tiles(p, SampleCount(p.Total()) - 1, runs, cuts, SampleCount(p.Total()) - 1)
    requires 0 <= k < |runs| && cuts[k] <= i < cuts[k + 1] <= SampleCount(p.Total()) - 1
    ensures var steps := SampleCount(p.Total()) - 1;
            MeansWhatItSays(p, (Sample(p.Total(), i, steps) + Sample(p.Total(), i + 1, steps)) / 2.0, runs[k].band)
  {
    hide BandAround, BandAt, Line, SampleCount, Sample, MeansWhatItSays, Tiles;
    var steps := SampleCount(p.Total()) - 1;
    PartHasBand(p, steps, runs, cuts, k, i);
    BandAtIs(p, i, steps);
    MiddleOfRoute(p, i, steps);
    BandIsRight(p, (Sample(p.Total(), i, steps) + Sample(p.Total(), i + 1, steps)) / 2.0);
  }

  lemma BandAtIs(p: Profile, i: int, steps: int)
    requires p.Valid() && steps > 0
    ensures BandAt(p, i, steps) == BandAround(p, (Sample(p.Total(), i, steps) + Sample(p.Total(), i + 1, steps)) / 2.0)
  {
    hide BandAround, Sample;
  }

  lemma PartHasBand(p: Profile, steps: int, runs: seq<Run>, cuts: seq<int>, k: int, i: int)
    requires p.Valid() && steps > 0 && Tiles(p, steps, runs, cuts, steps) && 0 <= k < |runs| && cuts[k] <= i < cuts[k + 1]
    ensures 0 <= i && BandAt(p, i, steps) == runs[k].band
  {
    hide BandAt, Sample;
    assert MadeOf(p, steps, runs[k], cuts[k], cuts[k + 1]);
  }

  lemma MiddleOfRoute(p: Profile, i: int, steps: int)
    requires p.Valid() && 0 <= i < steps
    ensures 0.0 <= (Sample(p.Total(), i, steps) + Sample(p.Total(), i + 1, steps)) / 2.0 <= p.Total()
  {
    hide Sample;
    SamplesGrow(p.Total(), 0, steps);
    SamplesOrdered(p.Total(), i, i + 1, steps);
    if i > 0 {
      SamplesOrdered(p.Total(), 0, i, steps);
    }
    if i + 1 < steps {
      SamplesOrdered(p.Total(), i + 1, steps, steps);
    }
  }
}
