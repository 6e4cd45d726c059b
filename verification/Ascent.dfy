/** Climbing and descending that counts (`climb` in frontend/gpx-import.js), and thinning a line for drawing. */
module Ascent {

  const STEP: real := 3.0

  function Positive(x: real): real {
    if x > 0.0 then x else 0.0
  }

  /** All the rises of a series added up, and all its falls. */
  function Upward(e: seq<real>): real {
    if |e| < 2 then 0.0 else Upward(e[..|e| - 1]) + Positive(e[|e| - 1] - e[|e| - 2])
  }

  function Downward(e: seq<real>): real {
    if |e| < 2 then 0.0 else Downward(e[..|e| - 1]) + Positive(e[|e| - 2] - e[|e| - 1])
  }

  /** What was counted so far, and the elevation the next change is measured from. */
  datatype Tally = Tally(ascent: real, descent: real, reference: real)
  {
    function Plus(e: real): Tally {
      var change := e - reference;
      if change >= STEP then Tally(ascent + change, descent, e)
      else if change <= -STEP then Tally(ascent, descent - change, e)
      else this
    }
  }

  function TallyOf(e: seq<real>): Tally
    requires e != []
  {
    if |e| == 1 then Tally(0.0, 0.0, e[0]).Plus(e[0]) else TallyOf(e[..|e| - 1]).Plus(e[|e| - 1])
  }

  /** A series without elevations climbs nothing. */
  method Climb(e: seq<real>) returns (ascent: real, descent: real)
    ensures e == [] ==> ascent == 0.0 && descent == 0.0
    ensures e != [] ==> ascent == TallyOf(e).ascent && descent == TallyOf(e).descent
  {
    ascent, descent := 0.0, 0.0;
    if e == [] {
      return;
    }
    var reference := e[0];
    for n := 0 to |e|
      invariant n == 0 ==> Tally(ascent, descent, reference) == Tally(0.0, 0.0, e[0])
      invariant n > 0 ==> Tally(ascent, descent, reference) == TallyOf(e[..n])
    {
      assert n > 0 ==> e[..n + 1][..n] == e[..n];
      var change := e[n] - reference;
      if change >= STEP {
        ascent := ascent + change;
        reference := e[n];
      } else if change <= -STEP {
        descent := descent - change;
        reference := e[n];
      }
    }
    assert e[..|e|] == e;
  }

  lemma {:induction false} TallyTracks(e: seq<real>)
    requires e != []
    ensures var t, last := TallyOf(e), e[|e| - 1];
            && t.ascent - t.descent == t.reference - e[0] && -3.0 < last - t.reference < 3.0
            && t.ascent + Positive(last - t.reference) <= Upward(e) && t.ascent >= 0.0
            && t.descent + Positive(t.reference - last) <= Downward(e) && t.descent >= 0.0
  {
    if |e| > 1 {
      TallyTracks(e[..|e| - 1]);
    }
  }

  /** For every series: the net change is met to within a step, and no more is counted than there is. */
  lemma ClimbIsWithinStep(e: seq<real>)
    requires e != []
    ensures var t := TallyOf(e);
            && -3.0 < (t.ascent - t.descent) - (e[|e| - 1] - e[0]) < 3.0
            && 0.0 <= t.ascent <= Upward(e) && 0.0 <= t.descent <= Downward(e)
  {
    hide TallyOf, Upward, Downward;
    TallyTracks(e);
  }

  predicate IsStep(e: seq<real>, i: int)
    requires 1 <= i < |e|
  {
    e[i] - e[i - 1] >= 3.0 || e[i - 1] - e[i] >= 3.0
  }

  /** A series whose every change from one sample to the next is a step or more is counted in full. */
  lemma {:induction false} BigStepsCountInFull(e: seq<real>)
    requires e != [] && forall i :: 1 <= i < |e| ==> IsStep(e, i)
    ensures TallyOf(e) == Tally(Upward(e), Downward(e), e[|e| - 1])
  {
    if |e| > 1 {
      var before := e[..|e| - 1];
      assert forall i :: 1 <= i < |before| ==> IsStep(e, i) ==> IsStep(before, i);
      assert IsStep(e, |e| - 1);
      BigStepsCountInFull(before);
    }
  }

  /** Every `step`-th of the first `n` points. */
  function Every<T>(points: seq<T>, step: int, n: nat): seq<T>
    requires step > 0 && n <= |points|
  {
    if n == 0 then [] else Every(points, step, n - 1) + (if (n - 1) % step == 0 then [points[n - 1]] else [])
  }

  /** The shape for the map: every `step`-th point, and the last. */
  method Thin<T>(points: seq<T>, limit: nat) returns (drawn: seq<T>)
    requires limit > 0
    ensures |points| <= limit ==> drawn == points
    ensures |points| > limit ==>
              drawn != [] && drawn[0] == points[0] && drawn[|drawn| - 1] == points[|points| - 1] && |drawn| <= limit + 1
    ensures |points| > limit ==>
              forall k :: 0 <= k < |drawn| - 1 ==> IsAt(points, k, (|points| + limit - 1) / limit, drawn[k])
  {
    if |points| <= limit {
      return points;
    }
    var step := (|points| + limit - 1) / limit;
    StepIsEnough(|points|, limit, step);
    drawn := [];
    for n := 0 to |points|
      invariant drawn == Every(points, step, n)
    {
      if n % step == 0 {
        drawn := drawn + [points[n]];
      }
    }
    EverySize(points, step, |points|);
    forall k | 0 <= k < |drawn| ensures IsAt(points, k, step, drawn[k]) {
      EveryAt(points, step, |points|, k);
    }
    var last := points[|points| - 1];
    if (|points| - 1) % step != 0 {
      drawn := drawn + [last];
    }
    CountIsBounded(|points|, limit, step, |Every(points, step, |points|)|);
  }

  lemma StepIsEnough(n: nat, limit: nat, step: int)
    requires n > limit > 0 && step == (n + limit - 1) / limit
    ensures step > 0 && step * limit >= n
  {
    var q, r := (n + limit - 1) / limit, (n + limit - 1) % limit;
    assert n + limit - 1 == q * limit + r;
  }

  lemma {:induction false} EverySize<T>(points: seq<T>, step: int, n: nat)
    requires step > 0 && n <= |points|
    ensures n == 0 ==> Every(points, step, n) == []
    ensures n > 0 ==> Every(points, step, n) != [] && Every(points, step, n)[0] == points[0]
    ensures n > 0 ==> (|Every(points, step, n)| - 1) * step <= n - 1
    ensures n > 0 ==> (n - 1) - (|Every(points, step, n)| - 1) * step == (n - 1) % step
  {
    if n == 1 {
      assert Every(points, step, 0) == [] && 0 % step == 0;
    } else if n > 1 {
      EverySize(points, step, n - 1);
      var k := |Every(points, step, n - 1)| - 1;
      NextRemainder(n - 2, k, step);
    }
  }

  /** The point `k` steps along. */
  predicate IsAt<T(==)>(points: seq<T>, k: int, step: int, point: T) {
    0 <= k * step < |points| && points[k * step] == point
  }

  lemma {:induction false} EveryAt<T>(points: seq<T>, step: int, n: nat, k: nat)
    requires step > 0 && n <= |points| && k < |Every(points, step, n)|
    ensures IsAt(points, k, step, Every(points, step, n)[k])
  {
    EverySize(points, step, n);
    if k < |Every(points, step, n - 1)| {
      EveryAt(points, step, n - 1, k);
    }
  }

  lemma NextRemainder(m: nat, k: int, step: int)
    requires step > 0 && m - k * step == m % step
    ensures (m + 1) % step == 0 ==> (m + 1) - (k + 1) * step == 0
    ensures (m + 1) % step != 0 ==> (m + 1) - k * step == (m + 1) % step
  {
    var r := m % step;
    if r + 1 == step {
      assert m + 1 == (k + 1) * step;
      MultipleHasNoRest(k + 1, step);
    } else {
      assert m + 1 == k * step + (r + 1);
      RestIsRest(k, step, r + 1);
    }
  }

  lemma MultipleHasNoRest(k: int, step: int)
    requires step > 0
    ensures (k * step) % step == 0
  {
    RestIsRest(k, step, 0);
  }

  lemma RestIsRest(k: int, step: int, r: int)
    requires 0 <= r < step
    ensures (k * step + r) % step == r
  {
    var x := k * step + r;
    var q := x / step;
    assert x == q * step + x % step;
    assert (q - k) * step == r - x % step;
    MultipleIsFar(q - k, step);
  }

  lemma MultipleIsFar(d: int, step: int)
    requires step > 0
    ensures d >= 1 ==> d * step >= step
    ensures d <= -1 ==> d * step <= -step
  {
  }

  lemma ProductGrows(a: int, b: int, step: int)
    requires step > 0
    ensures a >= b ==> a * step >= b * step
  {
  }

  lemma CountIsBounded(n: nat, limit: nat, step: int, count: int)
    requires step > 0 && step * limit >= n && n > 0 && (count - 1) * step <= n - 1
    ensures count <= limit
  {
    ProductGrows(count - 1, limit, step);
  }
}
