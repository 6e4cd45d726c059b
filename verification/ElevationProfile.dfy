/**
 The elevation series of a route (frontend/profile.js) over the reals: smoothing with a sliding
 window, interpolation between vertices, and the cut of the route into grade colours.
 */
module ElevationProfile {

  /** Distances along a route never go back. */
  ghost predicate Ascending(cum: seq<real>) {
    forall i, j :: 0 <= i <= j < |cum| ==> cum[i] <= cum[j]
  }

  // ---------------------------------------------------------------- smoothing

  function Sum(values: seq<real>, lo: int, hi: int): real
    requires 0 <= lo <= hi <= |values|
    decreases hi - lo
  {
    if lo == hi then 0.0 else Sum(values, lo, hi - 1) + values[hi - 1]
  }

  predicate InWindow(cum: seq<real>, i: nat, half: real, j: nat)
    requires i < |cum| && j < |cum|
  {
    cum[i] - half <= cum[j] <= cum[i] + half
  }

  /** The number of the first `n` vertices within half a window of vertex `i`, and the sum of their values. */
  ghost function Within(cum: seq<real>, values: seq<real>, i: nat, half: real, n: nat): (nat, real)
    requires |cum| == |values| && i < |cum| && n <= |cum|
  {
    if n == 0 then (0, 0.0)
    else
      var (count, sum) := Within(cum, values, i, half, n - 1);
      if InWindow(cum, i, half, n - 1) then (count + 1, sum + values[n - 1]) else (count, sum)
  }

  /** The mean of all values whose vertex is within half a window of vertex `i`. */
  ghost function WindowMean(cum: seq<real>, values: seq<real>, i: nat, half: real): real
    requires |cum| == |values| && i < |cum| && half >= 0.0
  {
    var (count, sum) := Within(cum, values, i, half, |cum|);
    WindowHasCentre(cum, values, i, half, |cum|);
    sum / count as real
  }

  lemma {:induction false} WindowHasCentre(cum: seq<real>, values: seq<real>, i: nat, half: real, n: nat)
    requires |cum| == |values| && i < n <= |cum| && half >= 0.0
    ensures Within(cum, values, i, half, n).0 > 0
    decreases n
  {
    if i < n - 1 {
      WindowHasCentre(cum, values, i, half, n - 1);
    }
  }

  /** When the window is the vertices from `lo` to `hi`, its count and sum are theirs. */
  lemma {:induction false} WindowIsRange(cum: seq<real>, values: seq<real>, i: nat, half: real, lo: nat, hi: nat, n: nat)
    requires |cum| == |values| && i < |cum| && lo <= hi <= |cum| && n <= |cum|
    requires forall j :: 0 <= j < |cum| ==> (InWindow(cum, i, half, j) <==> lo <= j < hi)
    ensures var m := if n < lo then lo else if n < hi then n else hi;
            Within(cum, values, i, half, n) == (m - lo, Sum(values, lo, m))
    decreases n
  {
    if n > 0 {
      WindowIsRange(cum, values, i, half, lo, hi, n - 1);
    }
  }

  lemma SumWithoutFirst(values: seq<real>, lo: int, hi: int)
    requires 0 <= lo < hi <= |values|
    ensures Sum(values, lo + 1, hi) == Sum(values, lo, hi) - values[lo]
    decreases hi - lo
  {
    if lo + 1 < hi {
      SumWithoutFirst(values, lo, hi - 1);
    }
  }

  /** The first `lo` vertices all lie before distance `c`; the first `hi` none beyond it. */
  ghost predicate AllBefore(cum: seq<real>, lo: nat, c: real) {
    lo <= |cum| && forall j :: 0 <= j < lo ==> cum[j] < c
  }

  ghost predicate NoneBeyond(cum: seq<real>, hi: nat, c: real) {
    hi <= |cum| && forall j :: 0 <= j < hi ==> cum[j] <= c
  }

  lemma WindowMoves(cum: seq<real>, lo: nat, hi: nat, i: nat, half: real)
    requires Ascending(cum) && i + 1 < |cum|
    requires AllBefore(cum, lo, cum[i] - half) && NoneBeyond(cum, hi, cum[i] + half)
    ensures AllBefore(cum, lo, cum[i + 1] - half) && NoneBeyond(cum, hi, cum[i + 1] + half)
  {
    assert cum[i] <= cum[i + 1];
  }

  /** The pointers stopped around the window: its mean is that of the vertices between them. */
  lemma MeanOfRange(cum: seq<real>, values: seq<real>, i: nat, half: real, lo: nat, hi: nat)
    requires |cum| == |values| && Ascending(cum) && half >= 0.0 && lo <= i < hi <= |cum|
    requires AllBefore(cum, lo, cum[i] - half) && cum[lo] >= cum[i] - half
    requires NoneBeyond(cum, hi, cum[i] + half) && (hi < |cum| ==> cum[hi] > cum[i] + half)
    ensures WindowMean(cum, values, i, half) == Sum(values, lo, hi) / (hi - lo) as real
  {
    hide Within, Sum;
    forall j | 0 <= j < |cum|
      ensures InWindow(cum, i, half, j) <==> lo <= j < hi
    {
      assert j >= lo ==> cum[lo] <= cum[j];
      assert j >= hi ==> cum[hi] <= cum[j];
    }
    WindowIsRange(cum, values, i, half, lo, hi, |cum|);
  }

  /** Two pointers that only move forward give every vertex the mean over its window. */
  method Smooth(cum: seq<real>, ele: seq<real>, window: real) returns (smoothed: seq<real>)
    requires |cum| == |ele| && Ascending(cum) && window >= 0.0
    ensures |smoothed| == |ele|
    ensures forall i :: 0 <= i < |ele| ==> smoothed[i] == WindowMean(cum, ele, i, window / 2.0)
  {
    hide WindowMean, Within, Ascending, AllBefore, NoneBeyond, Sum;
    var half := window / 2.0;
    var out := new real[|ele|];
    var lo, hi, sum := 0, 0, 0.0;
    Start(cum, ele);
    for i := 0 to |ele|
      invariant 0 <= lo <= hi <= |ele| && lo <= i && sum == Sum(ele, lo, hi)
      invariant i < |ele| ==> AllBefore(cum, lo, cum[i] - half) && NoneBeyond(cum, hi, cum[i] + half)
      invariant forall k :: 0 <= k < i ==> out[k] == WindowMean(cum, ele, k, half)
    {
      while hi < |ele| && cum[hi] <= cum[i] + half
        invariant lo <= hi <= |ele| && sum == Sum(ele, lo, hi) && NoneBeyond(cum, hi, cum[i] + half)
        modifies {}
      {
        OneMoreBefore(cum, hi, cum[i] + half);
        SumWithLast(ele, lo, hi);
        sum := sum + ele[hi];
        hi := hi + 1;
      }
      assert i < hi by { Ordered(cum, hi, i); }
      while cum[lo] < cum[i] - half
        invariant 0 <= lo <= i < hi && sum == Sum(ele, lo, hi) && AllBefore(cum, lo, cum[i] - half)
        modifies {}
        decreases i - lo
      {
        OneMoreLeft(cum, lo, cum[i] - half);
        SumWithoutFirst(ele, lo, hi);
        sum := sum - ele[lo];
        lo := lo + 1;
      }
      MeanOfRange(cum, ele, i, half, lo, hi);
      out[i] := sum / (hi - lo) as real;
      if i + 1 < |ele| {
        WindowMoves(cum, lo, hi, i, half);
      }
    }
    smoothed := out[..];
  }

  lemma Start(cum: seq<real>, ele: seq<real>)
    ensures Sum(ele, 0, 0) == 0.0 && forall c :: AllBefore(cum, 0, c) && NoneBeyond(cum, 0, c)
  {
  }

  lemma OneMoreBefore(cum: seq<real>, hi: nat, c: real)
    requires NoneBeyond(cum, hi, c) && hi < |cum| && cum[hi] <= c
    ensures NoneBeyond(cum, hi + 1, c)
  {
  }

  lemma OneMoreLeft(cum: seq<real>, lo: nat, c: real)
    requires AllBefore(cum, lo, c) && lo < |cum| && cum[lo] < c
    ensures AllBefore(cum, lo + 1, c)
  {
  }

  lemma SumWithLast(values: seq<real>, lo: nat, hi: nat)
    requires lo <= hi < |values|
    ensures Sum(values, lo, hi + 1) == Sum(values, lo, hi) + values[hi]
  {
  }

  lemma Ordered(cum: seq<real>, i: nat, j: nat)
    requires Ascending(cum)
    ensures i <= j < |cum| ==> cum[i] <= cum[j]
  {
  }

  // ---------------------------------------------------------------- interpolation

  /** The last vertex at or before distance `d`. */
  function VertexBefore(cum: seq<real>, d: real): (k: nat)
    requires cum != [] && cum[0] <= d
    ensures k < |cum| && cum[k] <= d
  {
    var last := |cum| - 1;
    if cum[last] <= d then last else VertexBefore(cum[..last], d)
  }

  /** The value a share `a / b` of the way from `x` to `y`. */
  function Blend(x: real, y: real, a: real, b: real): real
    requires b != 0.0
  {
    x + (y - x) * a / b
  }

  /** The value at distance `d` on the broken line through the vertices, level before the first and after the last. */
  function Line(cum: seq<real>, values: seq<real>, d: real): real
    requires |cum| == |values| > 0
  {
    if d <= cum[0] then values[0]
    else if d >= cum[|cum| - 1] then values[|cum| - 1]
    else
      var k := VertexBefore(cum, d);
      if k + 1 < |cum| && cum[k] < cum[k + 1] then Blend(values[k], values[k + 1], d - cum[k], cum[k + 1] - cum[k])
      else values[k]
  }

  lemma {:induction false} VertexBeforeIs(cum: seq<real>, d: real, k: nat)
    requires Ascending(cum) && k + 1 < |cum| && cum[k] <= d < cum[k + 1]
    ensures cum[0] <= d && VertexBefore(cum, d) == k
    decreases |cum|
  {
    if |cum| > k + 2 {
      VertexBeforeIs(cum[..|cum| - 1], d, k);
    } else {
      var before := cum[..|cum| - 1];
      assert before[|before| - 1] == cum[k];
    }
  }

  /** Binary search for the two vertices around `d`; the span between them is never zero. */
  method Interpolate(cum: seq<real>, values: seq<real>, d: real) returns (r: real)
    requires |cum| == |values| > 0 && Ascending(cum)
    ensures r == Line(cum, values, d)
  {
    if d <= cum[0] {
      return values[0];
    }
    var last := |cum| - 1;
    if d >= cum[last] {
      return values[last];
    }
    var lo, hi := 0, last;
    while hi - lo > 1
      invariant 0 <= lo < hi <= last && cum[lo] <= d < cum[hi]
    {
      var mid := (lo + hi) / 2;
      if cum[mid] <= d {
        lo := mid;
      } else {
        hi := mid;
      }
    }
    hide Blend, VertexBefore;
    VertexBeforeIs(cum, d, lo);
    var span, before := cum[hi] - cum[lo], values[lo];
    r := if span == 0.0 then before else Blend(before, values[hi], d - cum[lo], span);
  }

  lemma ProductOrder(x: real, a: real, b: real)
    requires x >= 0.0 && a <= b
    ensures x * a <= x * b
  {
  }

  lemma QuotientBetween(n: real, b: real, hi: real)
    requires b > 0.0 && 0.0 <= n <= hi * b
    ensures 0.0 <= n / b <= hi
  {
    var q := n / b;
    assert q * b == n;
    if q > hi {
      assert (q - hi) * b > 0.0;
    }
  }

  lemma BlendUp(x: real, y: real, a: real, b: real)
    requires 0.0 <= a <= b && b > 0.0 && x <= y
    ensures x <= Blend(x, y, a, b) <= y
  {
    ProductOrder(y - x, 0.0, a);
    ProductOrder(y - x, a, b);
    QuotientBetween((y - x) * a, b, y - x);
  }

  lemma BlendMirrors(x: real, y: real, a: real, b: real)
    requires b > 0.0
    ensures Blend(x, y, a, b) == -Blend(-x, -y, a, b)
  {
    var m, n := (y - x) * a, (-y - -x) * a;
    assert m == -n;
    var p, q := m / b, n / b;
    assert p * b == m && q * b == n;
    assert (p + q) * b == 0.0;
  }

  /** Between two vertices the line stays between their values. */
  lemma LineStaysBetween(cum: seq<real>, values: seq<real>, d: real, k: nat)
    requires |cum| == |values| && Ascending(cum) && k + 1 < |cum| && cum[0] < d && cum[k] <= d < cum[k + 1]
    ensures values[k] <= values[k + 1] ==> values[k] <= Line(cum, values, d) <= values[k + 1]
    ensures values[k + 1] <= values[k] ==> values[k + 1] <= Line(cum, values, d) <= values[k]
  {
    hide Blend, VertexBefore;
    var x, y, a, b := values[k], values[k + 1], d - cum[k], cum[k + 1] - cum[k];
    VertexBeforeIs(cum, d, k);
    LineAt(cum, values, d, k);
    if x <= y {
      BlendUp(x, y, a, b);
    } else {
      BlendMirrors(x, y, a, b);
      BlendUp(-x, -y, a, b);
    }
  }

  lemma LineAt(cum: seq<real>, values: seq<real>, d: real, k: nat)
    requires |cum| == |values| && Ascending(cum) && k + 1 < |cum| && cum[0] < d && cum[k] <= d < cum[k + 1]
    ensures Line(cum, values, d) == Blend(values[k], values[k + 1], d - cum[k], cum[k + 1] - cum[k])
  {
    hide Blend, VertexBefore;
    VertexBeforeIs(cum, d, k);
    assert cum[k + 1] <= cum[|cum| - 1];
  }

  lemma BlendStarts(x: real, y: real, b: real)
    requires b > 0.0
    ensures Blend(x, y, 0.0, b) == x
  {
    var none := (y - x) * 0.0;
    assert none == 0.0;
  }

  /** At a vertex the line has the value of the first vertex if that is as far, otherwise of the last that is. */
  lemma LineMeetsVertex(cum: seq<real>, values: seq<real>, k: nat)
    requires |cum| == |values| && Ascending(cum) && k < |cum|
    ensures cum[k] == cum[0] ==> Line(cum, values, cum[k]) == values[0]
    ensures cum[0] < cum[k] && (k + 1 < |cum| ==> cum[k] < cum[k + 1]) ==> Line(cum, values, cum[k]) == values[k]
  {
    hide Blend, VertexBefore;
    if k + 1 < |cum| && cum[0] < cum[k] < cum[k + 1] {
      LineAt(cum, values, cum[k], k);
      BlendStarts(values[k], values[k + 1], cum[k + 1] - cum[k]);
    }
  }
}
