/**
 The route cut into runs of one grade colour (`bandPieces` and `bandLegend` in frontend/profile.js).
 */
module GradeBands {
  import opened Common
  import opened ElevationProfile

  const PIECE_STEP: real := 25.0
  const MAX_SAMPLES: int := 240
  const COLOR_WINDOW: real := 300.0
  const MIN_ROUTE: real := 200.0

  datatype Profile = Profile(lons: seq<real>, lats: seq<real>, cum: seq<real>, ele: seq<real>)
  {
    /** What `build` makes: a route of at least 200 m, measured from its start. */
    ghost predicate Valid() {
      && |lons| == |lats| == |cum| == |ele| >= 2
      && Ascending(cum) && cum[0] == 0.0 && cum[|cum| - 1] >= MIN_ROUTE
    }

    function Total(): real
      requires cum != []
    {
      cum[|cum| - 1]
    }
  }

  /** The vertices' distances along the route, from the lengths between them. */
  method Accumulate(lengths: seq<real>) returns (cum: seq<real>)
    requires forall l <- lengths :: l >= 0.0
    ensures |cum| == |lengths| + 1 && cum[0] == 0.0 && Ascending(cum)
    ensures forall i :: 0 <= i < |lengths| ==> cum[i + 1] == cum[i] + lengths[i]
  {
    cum := [0.0];
    for n := 0 to |lengths|
      invariant |cum| == n + 1 && cum[0] == 0.0 && Ascending(cum)
      invariant forall i :: 0 <= i < n ==> cum[i + 1] == cum[i] + lengths[i]
    {
      assert lengths[n] in lengths;
      cum := cum + [cum[n] + lengths[n]];
    }
  }

  // ---------------------------------------------------------------- the grade around a sample

  datatype Band = SteepDescent | Descent | Flat | Climb | SteepClimb | VerySteepClimb

  function BandOf(grade: real): Band {
    var percent := grade * 100.0;
    if percent < -8.0 then SteepDescent
    else if percent < -3.0 then Descent
    else if percent < 3.0 then Flat
    else if percent < 6.0 then Climb
    else if percent < 10.0 then SteepClimb
    else VerySteepClimb
  }

  /** Rounding as Math.round does: halves go up. */
  function Round(x: real): int {
    (x + 0.5).Floor
  }

  function SampleCount(total: real): (n: int)
    ensures 2 <= n <= MAX_SAMPLES
  {
    var wanted := Round(total / PIECE_STEP) + 1;
    var atLeast := if wanted < 2 then 2 else wanted;
    if atLeast < MAX_SAMPLES then atLeast else MAX_SAMPLES
  }

  /** The parts between samples are as near to 25 m as a whole number of at most 239 parts allows. */
  lemma PartsAreAbout25m(total: real)
    requires total >= 0.0
    ensures var parts := (SampleCount(total) - 1) as real;
            && 1.0 <= parts <= 239.0
            && (parts > 1.0 ==> 25.0 * (2.0 * parts - 1.0) <= 2.0 * total)
            && (parts < 239.0 ==> 2.0 * total < 25.0 * (2.0 * parts + 1.0))
  {
  }

  /** Sample `i` of `steps` equal parts of the route. */
  function Sample(total: real, i: int, steps: int): real
    requires steps > 0
  {
    total * i as real / steps as real
  }

  /** The band between samples `i` and `i + 1`. */
  function BandAt(p: Profile, i: int, steps: int): Band
    requires |p.cum| == |p.ele| > 0 && steps > 0
  {
    BandAround(p, (Sample(p.Total(), i, steps) + Sample(p.Total(), i + 1, steps)) / 2.0)
  }

  /** The band at a distance: its grade is taken over a window around it, as far as the route goes. */
  function BandAround(p: Profile, mid: real): Band
    requires |p.cum| == |p.ele| > 0
  {
    BandOf(GradeAround(p, mid))
  }

  function GradeAround(p: Profile, mid: real): real
    requires |p.cum| == |p.ele| > 0
  {
    var lo, hi := Max(0.0, mid - COLOR_WINDOW / 2.0), Min(p.Total(), mid + COLOR_WINDOW / 2.0);
    (Line(p.cum, p.ele, hi) - Line(p.cum, p.ele, lo)) / Max(1.0, hi - lo)
  }

  lemma SamplesGrow(total: real, i: int, steps: int)
    requires total > 0.0 && steps > 0
    ensures Sample(total, i, steps) < Sample(total, i + 1, steps)
    ensures Sample(total, 0, steps) == 0.0 && Sample(total, steps, steps) == total
  {
    var n := steps as real;
    var part := total / n;
    assert part * n == total && part > 0.0;
    assert total * i as real / n == part * i as real;
    assert total * (i as real + 1.0) / n == part * (i as real + 1.0);
  }

  // ---------------------------------------------------------------- the runs

  datatype Run = Run(band: Band, from: real, to: real)

  /** The run is made of the samples from `a` to `b`, all of its band. */
  ghost predicate MadeOf(p: Profile, steps: int, run: Run, a: int, b: int)
    requires |p.cum| == |p.ele| > 0 && steps > 0
  {
    && 0 <= a < b
    && run.from == Sample(p.Total(), a, steps) && run.to == Sample(p.Total(), b, steps)
    && forall i :: a <= i < b ==> BandAt(p, i, steps) == run.band
  }

  /** The runs are exactly the longest stretches of samples of one band: `cuts` are where they begin and end. */
  ghost predicate Tiles(p: Profile, steps: int, runs: seq<Run>, cuts: seq<int>, upTo: int)
    requires |p.cum| == |p.ele| > 0 && steps > 0
  {
    && |cuts| == |runs| + 1 && cuts[0] == 0 && cuts[|runs|] == upTo
    && (forall k :: 0 <= k < |runs| ==> MadeOf(p, steps, runs[k], cuts[k], cuts[k + 1]))
    && (forall k :: 0 <= k < |runs| - 1 ==> runs[k].band != runs[k + 1].band)
  }

  lemma RunGrows(p: Profile, steps: int, run: Run, a: int, b: int)
    requires |p.cum| == |p.ele| > 0 && steps > 0 && MadeOf(p, steps, run, a, b) && BandAt(p, b, steps) == run.band
    ensures MadeOf(p, steps, run.(to := Sample(p.Total(), b + 1, steps)), a, b + 1)
  {
    hide BandAt, Sample;
  }

  lemma NewRun(p: Profile, steps: int, a: int)
    requires |p.cum| == |p.ele| > 0 && steps > 0 && a >= 0
    ensures MadeOf(p, steps, Run(BandAt(p, a, steps), Sample(p.Total(), a, steps), Sample(p.Total(), a + 1, steps)), a, a + 1)
  {
    hide BandAt, Sample;
  }

  method BandRuns(p: Profile) returns (runs: seq<Run>, ghost cuts: seq<int>)
    requires p.Valid()
    ensures Tiles(p, SampleCount(p.Total()) - 1, runs, cuts, SampleCount(p.Total()) - 1)
  {
    hide BandOf, Line, BandAt, Sample, MadeOf, Round;
    var steps := SampleCount(p.Total()) - 1;
    runs, cuts := [], [0];
    for i := 0 to steps
      invariant Tiles(p, steps, runs, cuts, i)
    {
      var band := GradeBand(p, i, steps);
      var from, to := Sample(p.Total(), i, steps), Sample(p.Total(), i + 1, steps);
      var last := |runs| - 1;
      if last >= 0 && runs[last].band == band {
        RunGrows(p, steps, runs[last], cuts[last], i);
        runs := runs[last := runs[last].(to := to)];
        cuts := cuts[last + 1 := i + 1];
      } else {
        NewRun(p, steps, i);
        runs := runs + [Run(band, from, to)];
        cuts := cuts + [i + 1];
      }
    }
  }

  method GradeBand(p: Profile, i: int, steps: int) returns (band: Band)
    requires p.Valid() && steps > 0
    ensures band == BandAt(p, i, steps)
  {
    hide BandOf;
    var mid := (Sample(p.Total(), i, steps) + Sample(p.Total(), i + 1, steps)) / 2.0;
    var lo, hi := Max(0.0, mid - COLOR_WINDOW / 2.0), Min(p.Total(), mid + COLOR_WINDOW / 2.0);
    var top := Interpolate(p.cum, p.ele, hi);
    var bottom := Interpolate(p.cum, p.ele, lo);
    band := BandOf((top - bottom) / Max(1.0, hi - lo));
  }

  /** The runs cover the route from start to end without gap or overlap. */
  lemma RunsCoverRoute(p: Profile, steps: int, runs: seq<Run>, cuts: seq<int>)
    requires p.Valid() && steps > 0 && Tiles(p, steps, runs, cuts, steps)
    ensures runs != [] && runs[0].from == 0.0 && runs[|runs| - 1].to == p.Total()
    ensures forall k :: 0 <= k < |runs| ==> runs[k].from < runs[k].to
    ensures forall k :: 0 <= k < |runs| - 1 ==> runs[k].to == runs[k + 1].from
  {
    hide Sample, BandAt;
    SamplesGrow(p.Total(), 0, steps);
    var n := |runs| - 1;
    assert n >= 0;
    assert MadeOf(p, steps, runs[0], cuts[0], cuts[0 + 1]) && MadeOf(p, steps, runs[n], cuts[n], cuts[n + 1]);
    forall k | 0 <= k < |runs|
      ensures runs[k].from < runs[k].to
    {
      SamplesOrdered(p.Total(), cuts[k], cuts[k + 1], steps);
    }
    forall k | 0 <= k < n
      ensures runs[k].to == runs[k + 1].from
    {
      assert MadeOf(p, steps, runs[k + 1], cuts[k + 1], cuts[k + 1 + 1]);
    }
  }

  lemma {:induction false} SamplesOrdered(total: real, i: int, j: int, steps: int)
    requires total > 0.0 && steps > 0 && i < j
    ensures Sample(total, i, steps) < Sample(total, j, steps)
    decreases j - i
  {
    hide Sample;
    SamplesGrow(total, j - 1, steps);
    if i < j - 1 {
      SamplesOrdered(total, i, j - 1, steps);
    }
  }

  // ---------------------------------------------------------------- the pieces on the map

  /** A point of the route as latitude and longitude. */
  datatype Point = Point(lat: real, lon: real)

  function PointAt(p: Profile, m: real): Point
    requires |p.lons| == |p.lats| == |p.cum| > 0
  {
    Point(Line(p.cum, p.lats, m), Line(p.cum, p.lons, m))
  }

  /** The first `n` vertices that lie strictly between two distances, in order. */
  function Inside(p: Profile, from: real, to: real, n: nat): seq<Point>
    requires |p.lons| == |p.lats| == |p.cum| && n <= |p.cum|
  {
    if n == 0 then []
    else Inside(p, from, to, n - 1) + (if from < p.cum[n - 1] < to then [Point(p.lats[n - 1], p.lons[n - 1])] else [])
  }

  /** Vertex by vertex. */
  function Vertices(p: Profile): (r: seq<Point>)
    requires |p.lons| == |p.lats| == |p.cum|
    ensures |r| == |p.cum|
  {
    seq(|p.cum|, i requires 0 <= i < |p.cum| => Point(p.lats[i], p.lons[i]))
  }

  /** The inner vertices of a piece are a stretch of the route: those strictly between its ends, each once. */
  lemma {:induction false} InsideIsStretch(p: Profile, from: real, to: real, n: nat) returns (lo: nat, hi: nat)
    requires |p.lons| == |p.lats| == |p.cum| && n <= |p.cum| && Ascending(p.cum)
    ensures lo <= hi <= n && Inside(p, from, to, n) == Vertices(p)[lo..hi]
    ensures forall i :: 0 <= i < n ==> (lo <= i < hi <==> from < p.cum[i] < to)
    ensures lo < hi < n ==> p.cum[hi] >= to
  {
    if n == 0 {
      lo, hi := 0, 0;
    } else {
      lo, hi := InsideIsStretch(p, from, to, n - 1);
      if from < p.cum[n - 1] < to {
        if lo == hi {
          lo, hi := n - 1, n - 1;
        }
        assert Vertices(p)[lo..n] == Vertices(p)[lo..n - 1] + [Vertices(p)[n - 1]];
        hi := n;
      }
    }
  }

  datatype Piece = Piece(run: Run, points: seq<Point>)

  /** A piece is drawn from its start through its vertices to its end, where the next one starts. */
  method BandPieces(p: Profile) returns (pieces: seq<Piece>, ghost cuts: seq<int>)
    requires p.Valid()
    ensures Tiles(p, SampleCount(p.Total()) - 1, RunsOf(pieces), cuts, SampleCount(p.Total()) - 1)
    ensures forall k :: 0 <= k < |pieces| ==>
              var run := pieces[k].run;
              pieces[k].points == [PointAt(p, run.from)] + Inside(p, run.from, run.to, |p.cum|) + [PointAt(p, run.to)]
  {
    hide Tiles, Line;
    var runs: seq<Run>;
    runs, cuts := BandRuns(p);
    pieces := [];
    for k := 0 to |runs|
      invariant |pieces| == k && forall j :: 0 <= j < k ==> pieces[j].run == runs[j]
      invariant forall j :: 0 <= j < k ==>
                  var run := pieces[j].run;
                  pieces[j].points == [PointAt(p, run.from)] + Inside(p, run.from, run.to, |p.cum|) + [PointAt(p, run.to)]
    {
      var from, to := runs[k].from, runs[k].to;
      var start := Locate(p, from);
      var points := [start];
      for v := 0 to |p.cum|
        invariant points == [start] + Inside(p, from, to, v)
      {
        if from < p.cum[v] < to {
          points := points + [Point(p.lats[v], p.lons[v])];
        }
      }
      var end := Locate(p, to);
      pieces := pieces + [Piece(runs[k], points + [end])];
    }
    assert RunsOf(pieces) == runs;
  }

  method Locate(p: Profile, m: real) returns (point: Point)
    requires p.Valid()
    ensures point == PointAt(p, m)
  {
    var lat := Interpolate(p.cum, p.lats, m);
    var lon := Interpolate(p.cum, p.lons, m);
    point := Point(lat, lon);
  }

  function RunsOf(pieces: seq<Piece>): (runs: seq<Run>)
    ensures |runs| == |pieces| && forall k :: 0 <= k < |pieces| ==> runs[k] == pieces[k].run
  {
    seq(|pieces|, k requires 0 <= k < |pieces| => pieces[k].run)
  }

  // ---------------------------------------------------------------- the chart

  datatype Sampled = Sampled(m: real, e: real)

  /** An area under the profile between two samples. */
  datatype Area = Area(band: Band, a: Sampled, b: Sampled)

  /** The area over the i-th part of the route, coloured by the grade around its middle. */
  ghost predicate AreaIs(p: Profile, area: Area, i: int, steps: int)
    requires p.Valid() && steps > 0
  {
    && area.a.m == Sample(p.Total(), i, steps) && area.b.m == Sample(p.Total(), i + 1, steps)
    && area.a.e == Line(p.cum, p.ele, area.a.m) && area.b.e == Line(p.cum, p.ele, area.b.m)
    && area.band == BandAround(p, (area.a.m + area.b.m) / 2.0)
  }

  ghost predicate IsChart(p: Profile, areas: seq<Area>)
    requires p.Valid()
  {
    var steps := SampleCount(p.Total()) - 1;
    |areas| == steps && forall i :: 0 <= i < steps ==> AreaIs(p, areas[i], i, steps)
  }

  ghost predicate SampledAt(p: Profile, pt: Sampled, i: int, steps: int)
    requires p.Valid() && steps > 0
  {
    pt.m == Sample(p.Total(), i, steps) && pt.e == Line(p.cum, p.ele, pt.m)
  }

  method Samples(p: Profile) returns (pts: seq<Sampled>)
    requires p.Valid()
    ensures |pts| == SampleCount(p.Total())
    ensures forall j :: 0 <= j < |pts| ==> SampledAt(p, pts[j], j, |pts| - 1)
  {
    hide Line, Round, Sample;
    var samples := SampleCount(p.Total());
    pts := [];
    for i := 0 to samples
      invariant |pts| == i && forall j :: 0 <= j < i ==> SampledAt(p, pts[j], j, samples - 1)
    {
      var m := Sample(p.Total(), i, samples - 1);
      var e := Interpolate(p.cum, p.ele, m);
      pts := pts + [Sampled(m, e)];
    }
  }

  lemma SamplesMakeArea(p: Profile, a: Sampled, b: Sampled, i: int, steps: int)
    requires p.Valid() && steps > 0 && SampledAt(p, a, i, steps) && SampledAt(p, b, i + 1, steps)
    ensures AreaIs(p, Area(BandAround(p, (a.m + b.m) / 2.0), a, b), i, steps)
  {
  }

  method ChartAreas(p: Profile) returns (areas: seq<Area>)
    requires p.Valid()
    ensures IsChart(p, areas)
  {
    hide BandOf, Line, Round, Sample, AreaIs, SampledAt, BandAround;
    var pts := Samples(p);
    areas := [];
    for i := 0 to |pts| - 1
      invariant |areas| == i && forall j :: 0 <= j < i ==> AreaIs(p, areas[j], j, |pts| - 1)
    {
      var a, b := pts[i], pts[i + 1];
      var band := ChartBand(p, a, b);
      SamplesMakeArea(p, a, b, i, |pts| - 1);
      areas := areas + [Area(band, a, b)];
    }
  }

  method ChartBand(p: Profile, a: Sampled, b: Sampled) returns (band: Band)
    requires p.Valid()
    ensures band == BandAround(p, (a.m + b.m) / 2.0)
  {
    hide BandOf, Line;
    var mid := (a.m + b.m) / 2.0;
    var from, to := Max(0.0, mid - COLOR_WINDOW / 2.0), Min(p.Total(), mid + COLOR_WINDOW / 2.0);
    var top := Interpolate(p.cum, p.ele, to);
    var bottom := Interpolate(p.cum, p.ele, from);
    band := BandOf((top - bottom) / Max(1.0, to - from));
  }

  /** Main result: the map and the chart agree: every area of the chart lies in a run of its own band. */
  lemma MapAgreesWithChart(p: Profile, runs: seq<Run>, cuts: seq<int>, areas: seq<Area>, i: int) returns (k: int)
    requires p.Valid() && IsChart(p, areas) && 0 <= i < |areas|
    requires Tiles(p, SampleCount(p.Total()) - 1, runs, cuts, SampleCount(p.Total()) - 1)
    ensures 0 <= k < |runs| && runs[k].band == areas[i].band
    ensures runs[k].from <= areas[i].a.m < areas[i].b.m <= runs[k].to
  {
    hide BandAround, Line, Round, Sample;
    var steps := SampleCount(p.Total()) - 1;
    k := 0;
    while cuts[k + 1] <= i
      invariant 0 <= k < |runs| && cuts[k] <= i
      decreases |runs| - k
    {
      k := k + 1;
    }
    assert MadeOf(p, steps, runs[k], cuts[k], cuts[k + 1]) && AreaIs(p, areas[i], i, steps);
    assert BandAt(p, i, steps) == runs[k].band;
    SamplesOrdered(p.Total(), i, i + 1, steps);
    if cuts[k] < i {
      SamplesOrdered(p.Total(), cuts[k], i, steps);
    }
    if i + 1 < cuts[k + 1] {
      SamplesOrdered(p.Total(), i + 1, cuts[k + 1], steps);
    }
  }

  // ---------------------------------------------------------------- the legend

  function Covered(runs: seq<Run>): real {
    if runs == [] then 0.0 else Covered(runs[..|runs| - 1]) + (runs[|runs| - 1].to - runs[|runs| - 1].from)
  }

  /** What a band covers, before short rows are dropped. */
  function Meters(runs: seq<Run>, band: Band): real {
    if runs == [] then 0.0
    else
      var last := runs[|runs| - 1];
      Meters(runs[..|runs| - 1], band) + (if last.band == band then last.to - last.from else 0.0)
  }

  lemma {:induction false} BandsCover(runs: seq<Run>)
    ensures Meters(runs, SteepDescent) + Meters(runs, Descent) + Meters(runs, Flat)
          + Meters(runs, Climb) + Meters(runs, SteepClimb) + Meters(runs, VerySteepClimb) == Covered(runs)
  {
    if runs != [] {
      BandsCover(runs[..|runs| - 1]);
    }
  }

  lemma {:induction false} CoveredIsEnd(runs: seq<Run>)
    requires runs != [] && forall k :: 0 <= k < |runs| - 1 ==> runs[k].to == runs[k + 1].from
    ensures Covered(runs) == runs[|runs| - 1].to - runs[0].from
  {
    if |runs| > 1 {
      CoveredIsEnd(runs[..|runs| - 1]);
    } else {
      assert runs[..0] == [];
    }
  }

  /** The legend's lengths add up to the whole route. */
  lemma LegendAddsUp(p: Profile, steps: int, runs: seq<Run>, cuts: seq<int>)
    requires p.Valid() && steps > 0 && Tiles(p, steps, runs, cuts, steps)
    ensures Meters(runs, SteepDescent) + Meters(runs, Descent) + Meters(runs, Flat)
          + Meters(runs, Climb) + Meters(runs, SteepClimb) + Meters(runs, VerySteepClimb) == p.Total()
  {
    hide Tiles, Meters, Covered;
    RunsCoverRoute(p, steps, runs, cuts);
    CoveredIsEnd(runs);
    BandsCover(runs);
  }

  const MIN_LEGEND: real := 25.0

  /** From the steepest descent to the steepest climb. */
  const BANDS := [SteepDescent, Descent, Flat, Climb, SteepClimb, VerySteepClimb]

  datatype Row = Row(band: Band, meters: real, share: real)

  function Rows(runs: seq<Run>, bands: seq<Band>, total: real): seq<Row>
    requires total > 0.0
  {
    if bands == [] then []
    else
      var meters := Meters(runs, bands[0]);
      (if meters >= MIN_LEGEND then [Row(bands[0], meters, meters / total)] else []) + Rows(runs, bands[1..], total)
  }

  /** `bandLegend`. */
  function Legend(runs: seq<Run>): seq<Row> {
    if Covered(runs) > 0.0 then Rows(runs, BANDS, Covered(runs)) else []
  }

  function Rank(band: Band): int {
    match band
    case SteepDescent => 0
    case Descent => 1
    case Flat => 2
    case Climb => 3
    case SteepClimb => 4
    case VerySteepClimb => 5
  }

  lemma {:induction false} RowsAre(runs: seq<Run>, bands: seq<Band>, total: real)
    requires total > 0.0
    requires forall i, j :: 0 <= i < j < |bands| ==> Rank(bands[i]) < Rank(bands[j])
    ensures forall r :: r in Rows(runs, bands, total) <==>
              r.band in bands && r == Row(r.band, Meters(runs, r.band), Meters(runs, r.band) / total) && r.meters >= MIN_LEGEND
    ensures forall i, j :: 0 <= i < j < |Rows(runs, bands, total)| ==>
              Rank(Rows(runs, bands, total)[i].band) < Rank(Rows(runs, bands, total)[j].band)
  {
    hide Meters, Rank;
    if bands != [] {
      RowsAre(runs, bands[1..], total);
      assert forall b :: b in bands <==> b == bands[0] || b in bands[1..];
    }
  }

  /** The legend has every band that covers 25 m or more, and no other, from descent to climb, with its share of the route. */
  lemma LegendIs(p: Profile, steps: int, runs: seq<Run>, cuts: seq<int>)
    requires p.Valid() && steps > 0 && Tiles(p, steps, runs, cuts, steps)
    ensures forall r :: r in Legend(runs) <==>
              r.meters == Meters(runs, r.band) && r.meters >= 25.0 && r.share == r.meters / p.Total()
    ensures forall i, j :: 0 <= i < j < |Legend(runs)| ==> Rank(Legend(runs)[i].band) < Rank(Legend(runs)[j].band)
  {
    hide Tiles, Meters, Covered, Rows;
    RunsCoverRoute(p, steps, runs, cuts);
    CoveredIsEnd(runs);
    RowsAre(runs, BANDS, p.Total());
    forall r: Row ensures r.band in BANDS {
      assert BANDS[Rank(r.band)] == r.band;
    }
  }
}
