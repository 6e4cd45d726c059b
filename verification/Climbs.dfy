/**
 The climbs of a route worth naming (`climbs` in frontend/profile.js): one pass over the elevation
 series that follows the foot and the peak of the climb under way.
 */
module Climbs {
  import opened Common

  const MIN_GAIN: real := 25.0
  const MIN_LENGTH: real := 400.0
  const MIN_GRADE: real := 0.03
  const DIP: real := 10.0
  const NAMED: nat := 3

  /** A stretch of the series, from a foot to a peak. */
  datatype Stretch = Stretch(foot: nat, peak: nat)

  /** The climb under way, and those that are over. */
  datatype Scan = Scan(foot: nat, peak: nat, over: seq<Stretch>)
  {
    function Step(e: seq<real>, i: nat): Scan
      requires foot < |e| && peak < |e| && i < |e|
    {
      var looked := if e[i] >= e[peak] then this.(peak := i)
                    else if e[peak] - e[i] >= DIP then Scan(i, i, over + [Stretch(foot, peak)])
                    else this;
      if looked.peak == looked.foot && e[i] < e[looked.foot] then looked.(foot := i, peak := i) else looked
    }
  }

  predicate InRange(stretches: seq<Stretch>, n: nat) {
    forall k :: 0 <= k < |stretches| ==> stretches[k].foot < n && stretches[k].peak < n
  }

  /** The scan after the first `n` samples. */
  function ScanTo(e: seq<real>, n: nat): (s: Scan)
    requires 1 <= n <= |e|
    ensures InRange(s.over, n) && s.foot < n && s.peak < n
  {
    if n == 1 then Scan(0, 0, []) else ScanTo(e, n - 1).Step(e, n - 1)
  }

  /** All stretches that are looked at, before any limit is applied. */
  function Considered(e: seq<real>): (r: seq<Stretch>)
    requires e != []
    ensures InRange(r, |e|)
  {
    var s := ScanTo(e, |e|);
    s.over + [Stretch(s.foot, s.peak)]
  }

  // ---------------------------------------------------------------- what a stretch is

  /** From `a` up to `b` the series never comes down by as much as a dip. */
  ghost predicate NoDip(e: seq<real>, a: nat, b: nat)
    requires b <= |e|
  {
    forall j, k :: a <= j <= k < b ==> e[j] - e[k] < 10.0
  }

  ghost predicate Topped(e: seq<real>, a: nat, peak: nat, b: nat)
    requires peak < |e| && b <= |e|
  {
    forall j :: a <= j < b ==> e[j] <= e[peak]
  }

  /** A rise to its highest sample, with no dip on the way. */
  ghost predicate Rise(e: seq<real>, s: Stretch) {
    s.foot <= s.peak < |e| && NoDip(e, s.foot, s.peak + 1) && Topped(e, s.foot, s.peak, s.peak + 1)
  }

  ghost predicate Apart(over: seq<Stretch>, end: nat) {
    && (forall k :: 0 <= k < |over| ==> over[k].foot <= over[k].peak < end)
    && (forall j, k :: 0 <= j < k < |over| ==> over[j].peak < over[k].foot)
  }

  ghost predicate Sound(e: seq<real>, s: Scan, n: nat)
    requires n <= |e|
  {
    && s.foot <= s.peak < n && NoDip(e, s.foot, n) && Topped(e, s.foot, s.peak, n)
    && Apart(s.over, s.foot) && forall k :: 0 <= k < |s.over| ==> Rise(e, s.over[k])
  }

  lemma NoDipGrows(e: seq<real>, a: nat, peak: nat, n: nat)
    requires a <= peak < n < |e| && NoDip(e, a, n) && Topped(e, a, peak, n) && e[peak] - e[n] < DIP
    ensures NoDip(e, a, n + 1)
  {
  }

  lemma OneSample(e: seq<real>, n: nat)
    requires n < |e|
    ensures NoDip(e, n, n + 1) && Topped(e, n, n, n + 1)
  {
  }

  lemma RiseOfRun(e: seq<real>, foot: nat, peak: nat, n: nat)
    requires foot <= peak < n <= |e| && NoDip(e, foot, n) && Topped(e, foot, peak, n)
    ensures Rise(e, Stretch(foot, peak))
  {
  }

  lemma StepIsSound(e: seq<real>, s: Scan, n: nat)
    requires n < |e| && Sound(e, s, n)
    ensures Sound(e, s.Step(e, n), n + 1)
  {
    hide NoDip, Rise;
    OneSample(e, n);
    if e[n] >= e[s.peak] || e[s.peak] - e[n] < DIP {
      NoDipGrows(e, s.foot, s.peak, n);
    } else {
      RiseOfRun(e, s.foot, s.peak, n);
    }
  }

  lemma {:induction false} ScanIsSound(e: seq<real>, n: nat)
    requires 1 <= n <= |e|
    ensures Sound(e, ScanTo(e, n), n)
  {
    hide NoDip, Topped, Rise, Scan.Step;
    if n == 1 {
      OneSample(e, 0);
    } else {
      hide Sound;
      ScanIsSound(e, n - 1);
      StepIsSound(e, ScanTo(e, n - 1), n - 1);
    }
  }

  /** The stretches looked at are disjoint, in order, and rises without a dip. */
  lemma ConsideredAreRises(e: seq<real>)
    requires e != []
    ensures Apart(Considered(e), |e|)
    ensures forall k :: 0 <= k < |Considered(e)| ==> Rise(e, Considered(e)[k])
  {
    hide ScanTo;
    ScanIsSound(e, |e|);
    var s := ScanTo(e, |e|);
    assert Rise(e, Stretch(s.foot, s.peak));
  }

  // ---------------------------------------------------------------- no rise is missed

  function Gain(e: seq<real>, s: Stretch): real
    requires s.foot < |e| && s.peak < |e|
  {
    e[s.peak] - e[s.foot]
  }

  /** While a rise lasts, the foot in use stays less than a dip above where the rise began. */
  lemma {:induction false} FootStaysLow(e: seq<real>, a: nat, i: nat)
    requires a <= i < |e| && NoDip(e, a, i + 1)
    ensures e[ScanTo(e, i + 1).foot] < e[a] + DIP
    decreases i
  {
    hide ScanTo;
    ScanIsSound(e, i + 1);
    if i > a {
      FootStaysLow(e, a, i - 1);
      ScanIsSound(e, i);
      var before := ScanTo(e, i);
      ScanStep(e, i + 1);
      if e[before.peak] - e[i] >= DIP && before.peak < a {
        assert e[before.peak] - e[a] < DIP;
      }
    }
  }

  lemma ScanStep(e: seq<real>, n: nat)
    requires 1 < n <= |e|
    ensures ScanTo(e, n) == ScanTo(e, n - 1).Step(e, n - 1)
  {
  }

  predicate Gains(e: seq<real>, s: Stretch, gain: real) {
    s.foot < |e| && s.peak < |e| && Gain(e, s) >= gain
  }

  /** The scan has, under way or over, a stretch of at least this gain. */
  ghost predicate Has(e: seq<real>, s: Scan, gain: real) {
    Gains(e, Stretch(s.foot, s.peak), gain) || exists k :: 0 <= k < |s.over| && Gains(e, s.over[k], gain)
  }

  lemma StepKeepsGain(e: seq<real>, s: Scan, n: nat, gain: real)
    requires n < |e| && s.foot < |e| && s.peak < |e| && Has(e, s, gain) && gain > 0.0
    ensures Has(e, s.Step(e, n), gain)
  {
    hide Gain;
    var next := s.Step(e, n);
    if Gains(e, Stretch(s.foot, s.peak), gain) {
      GainIsDifference(e, s.foot, s.peak);
      GainIsDifference(e, s.foot, n);
      if next.over != s.over {
        assert Gains(e, next.over[|s.over|], gain);
      }
    } else {
      var k :| 0 <= k < |s.over| && Gains(e, s.over[k], gain);
      assert next.over[k] == s.over[k];
    }
  }

  lemma GainIsDifference(e: seq<real>, foot: nat, peak: nat)
    requires foot < |e| && peak < |e|
    ensures Gain(e, Stretch(foot, peak)) == e[peak] - e[foot]
  {
  }

  lemma {:induction false} GainIsKept(e: seq<real>, n: nat, m: nat, gain: real)
    requires 1 <= n <= m <= |e| && gain > 0.0 && Has(e, ScanTo(e, n), gain)
    ensures Has(e, ScanTo(e, m), gain)
    decreases m
  {
    hide ScanTo, Has;
    if m > n {
      GainIsKept(e, n, m - 1, gain);
      ScanStep(e, m);
      StepKeepsGain(e, ScanTo(e, m - 1), m - 1, gain);
    }
  }

  /** Every rise without a dip has a stretch looked at that climbs as much, less a dip at most. */
  lemma NoRiseIsMissed(e: seq<real>, a: nat, b: nat) returns (k: nat)
    requires a <= b < |e| && NoDip(e, a, b + 1)
    ensures k < |Considered(e)| && Rise(e, Considered(e)[k])
    ensures Gain(e, Considered(e)[k]) > e[b] - e[a] - 10.0
  {
    hide ScanTo;
    var gain := e[b] - e[a] - DIP;
    ConsideredAreRises(e);
    var last := ScanTo(e, |e|);
    k := |last.over|;
    if gain >= 0.0 {
      FootStaysLow(e, a, b);
      ScanIsSound(e, b + 1);
      var at := ScanTo(e, b + 1);
      GainIsKept(e, b + 1, |e|, e[b] - e[at.foot]);
      if !Gains(e, Considered(e)[k], e[b] - e[at.foot]) {
        k :| 0 <= k < |last.over| && Gains(e, last.over[k], e[b] - e[at.foot]);
      }
    }
  }

  // ---------------------------------------------------------------- the climbs that are named

  datatype Climb = Climb(from: real, length: real, gain: real, grade: real)

  /** At least this much gain, this long and this steep on average. */
  predicate Counts(d: seq<real>, e: seq<real>, s: Stretch)
    requires s.foot < |d| && s.peak < |d| && |d| == |e|
  {
    var gain, length := Gain(e, s), d[s.peak] - d[s.foot];
    gain >= MIN_GAIN && length >= MIN_LENGTH && gain / length >= MIN_GRADE
  }

  function AsClimb(d: seq<real>, e: seq<real>, s: Stretch): Climb
    requires s.foot < |d| && s.peak < |d| && |d| == |e| && Counts(d, e, s)
  {
    var gain, length := Gain(e, s), d[s.peak] - d[s.foot];
    Climb(d[s.foot], length, gain, gain / length)
  }

  /** A climb goes behind those that gain at least as much. */
  function Insert(sorted: seq<Climb>, c: Climb): seq<Climb> {
    if sorted == [] then [c]
    else if sorted[|sorted| - 1].gain >= c.gain then sorted + [c]
    else Insert(sorted[..|sorted| - 1], c) + [sorted[|sorted| - 1]]
  }

  /** `found.sort`: biggest gain first, equal ones in the order they were found. */
  function Sort(found: seq<Climb>): seq<Climb> {
    if found == [] then [] else Insert(Sort(found[..|found| - 1]), found[|found| - 1])
  }

  ghost predicate Descending(cs: seq<Climb>) {
    forall i, j :: 0 <= i <= j < |cs| ==> cs[i].gain >= cs[j].gain
  }

  ghost predicate AllAtLeast(cs: seq<Climb>, gain: real) {
    forall i :: 0 <= i < |cs| ==> cs[i].gain >= gain
  }

  lemma {:induction false} InsertKeepsBound(sorted: seq<Climb>, c: Climb, gain: real)
    requires AllAtLeast(sorted, gain) && c.gain >= gain
    ensures AllAtLeast(Insert(sorted, c), gain)
  {
    if sorted != [] && sorted[|sorted| - 1].gain < c.gain {
      InsertKeepsBound(sorted[..|sorted| - 1], c, gain);
    }
  }

  lemma {:induction false} InsertSorts(sorted: seq<Climb>, c: Climb)
    requires Descending(sorted)
    ensures Descending(Insert(sorted, c))
  {
    if sorted != [] && sorted[|sorted| - 1].gain < c.gain {
      var before, last := sorted[..|sorted| - 1], sorted[|sorted| - 1];
      InsertSorts(before, c);
      InsertKeepsBound(before, c, last.gain);
    }
  }

  lemma {:induction false} InsertAdds(sorted: seq<Climb>, c: Climb)
    ensures multiset(Insert(sorted, c)) == multiset(sorted) + multiset{c}
  {
    if sorted != [] && sorted[|sorted| - 1].gain < c.gain {
      var before, last := sorted[..|sorted| - 1], sorted[|sorted| - 1];
      InsertAdds(before, c);
      assert sorted == before + [last];
    }
  }

  lemma {:induction false} SortSorts(found: seq<Climb>)
    ensures Descending(Sort(found)) && multiset(Sort(found)) == multiset(found)
  {
    hide Insert, Descending;
    if found == [] {
      assert Descending([]) by { NoneDescend(); }
    } else {
      var before, last := found[..|found| - 1], found[|found| - 1];
      SortSorts(before);
      InsertSorts(Sort(before), last);
      InsertAdds(Sort(before), last);
      assert found == before + [last];
    }
  }

  lemma NoneDescend()
    ensures Descending([])
  {
  }

  /** The climbs among stretches, in their order. */
  function Found(d: seq<real>, e: seq<real>, stretches: seq<Stretch>): seq<Climb>
    requires |d| == |e| && InRange(stretches, |e|)
  {
    if stretches == [] then []
    else
      var last := stretches[|stretches| - 1];
      Found(d, e, stretches[..|stretches| - 1]) + (if Counts(d, e, last) then [AsClimb(d, e, last)] else [])
  }

  function Take(cs: seq<Climb>, limit: Option<nat>): seq<Climb> {
    var n := if limit.None? then NAMED else limit.value;
    if n < |cs| then cs[..n] else cs
  }

  method FindClimbs(d: seq<real>, e: seq<real>, limit: Option<nat>) returns (r: seq<Climb>)
    requires |d| == |e| > 0
    ensures r == Take(Sort(Found(d, e, Considered(e))), limit)
  {
    hide ScanTo, Counts, Found, Sort, Take, Scan.Step;
    var found := [];
    var foot, peak := 0, 0;
    ghost var over: seq<Stretch> := [];
    FirstScan(e);
    FoundNone(d, e);
    for i := 1 to |e|
      invariant ScanTo(e, i) == Scan(foot, peak, over) && foot < i && peak < i
      invariant InRange(over, |e|)
      invariant found == Found(d, e, over)
    {
      ScanStep(e, i + 1);
      StepIs(e, Scan(foot, peak, over), i);
      if e[i] >= e[peak] {
        peak := i;
      } else if e[peak] - e[i] >= DIP {
        found := Consider(d, e, foot, peak, over, found);
        over := over + [Stretch(foot, peak)];
        foot, peak := i, i;
      }
      if peak == foot && e[i] < e[foot] {
        foot, peak := i, i;
      }
    }
    found := Consider(d, e, foot, peak, over, found);
    r := Take(Sort(found), limit);
  }

  lemma FirstScan(e: seq<real>)
    requires e != []
    ensures ScanTo(e, 1) == Scan(0, 0, [])
  {
  }

  lemma FoundNone(d: seq<real>, e: seq<real>)
    requires |d| == |e|
    ensures Found(d, e, []) == []
  {
  }

  lemma StepIs(e: seq<real>, s: Scan, i: nat)
    requires s.foot < |e| && s.peak < |e| && i < |e|
    ensures s.Step(e, i) ==
            if e[i] >= e[s.peak] then
              if i == s.foot && e[i] < e[s.foot] then Scan(i, i, s.over) else Scan(s.foot, i, s.over)
            else if e[s.peak] - e[i] >= DIP then Scan(i, i, s.over + [Stretch(s.foot, s.peak)])
            else if s.peak == s.foot && e[i] < e[s.foot] then Scan(i, i, s.over)
            else s
  {
  }

  method Consider(d: seq<real>, e: seq<real>, foot: nat, peak: nat, ghost over: seq<Stretch>, found: seq<Climb>) returns (r: seq<Climb>)
    requires |d| == |e| && foot < |e| && peak < |e|
    requires InRange(over, |e|)
    requires found == Found(d, e, over)
    ensures r == Found(d, e, over + [Stretch(foot, peak)])
  {
    assert (over + [Stretch(foot, peak)])[..|over|] == over;
    if Counts(d, e, Stretch(foot, peak)) {
      r := found + [AsClimb(d, e, Stretch(foot, peak))];
    } else {
      r := found;
    }
  }

  lemma {:induction false} FoundCount(d: seq<real>, e: seq<real>, stretches: seq<Stretch>, c: Climb)
    requires |d| == |e| && InRange(stretches, |e|)
    ensures c in Found(d, e, stretches) <==>
            exists k :: 0 <= k < |stretches| && Counts(d, e, stretches[k]) && c == AsClimb(d, e, stretches[k])
  {
    hide Counts, AsClimb;
    if stretches != [] {
      FoundCount(d, e, stretches[..|stretches| - 1], c);
    }
  }

  /** The climb is this stretch: 25 m of gain, 400 m long and 3 % steep or more. */
  predicate IsClimb(d: seq<real>, e: seq<real>, s: Stretch, c: Climb)
    requires s.foot < |d| && s.peak < |d| && |d| == |e|
  {
    && c.from == d[s.foot] && c.length == d[s.peak] - d[s.foot] && c.gain == e[s.peak] - e[s.foot]
    && c.gain >= 25.0 && c.length >= 400.0 && c.grade == c.gain / c.length && c.grade >= 0.03
  }

  lemma IsClimbIff(d: seq<real>, e: seq<real>, s: Stretch, c: Climb)
    requires s.foot < |d| && s.peak < |d| && |d| == |e|
    ensures IsClimb(d, e, s, c) <==> Counts(d, e, s) && c == AsClimb(d, e, s)
  {
  }

  /** What is found are the stretches that are climbs. */
  lemma FoundAreClimbs(d: seq<real>, e: seq<real>, c: Climb)
    requires |d| == |e| > 0
    ensures c in Found(d, e, Considered(e)) <==> exists k :: 0 <= k < |Considered(e)| && IsClimb(d, e, Considered(e)[k], c)
  {
    hide Considered, Found, Counts, AsClimb, IsClimb;
    var over := Considered(e);
    FoundCount(d, e, over, c);
    forall k | 0 <= k < |over|
      ensures IsClimb(d, e, over[k], c) <==> Counts(d, e, over[k]) && c == AsClimb(d, e, over[k])
    {
      IsClimbIff(d, e, over[k], c);
    }
  }

  /**
   Main result: every named climb is a rise without a dip of 10 m that has the gain, length and steepness of a
   climb; three are named when no other number is asked for, and one left out gains no more than any named.
   */
  lemma NamedClimbs(d: seq<real>, e: seq<real>, limit: Option<nat>, c: Climb)
    requires |d| == |e| > 0
    ensures forall k :: 0 <= k < |Considered(e)| ==> Rise(e, Considered(e)[k])
    ensures var found, n := Found(d, e, Considered(e)), if limit.None? then 3 else limit.value;
            var named := Take(Sort(found), limit);
            && (c in named ==> exists k :: 0 <= k < |Considered(e)| && IsClimb(d, e, Considered(e)[k], c))
            && |named| == (if |found| < n then |found| else n)
            && ((exists k :: 0 <= k < |Considered(e)| && IsClimb(d, e, Considered(e)[k], c)) && c !in named ==>
                 forall i :: 0 <= i < |named| ==> named[i].gain >= c.gain)
  {
    hide Considered, Found, Sort, Counts, AsClimb, Rise, IsClimb;
    ConsideredAreRises(e);
    var found := Found(d, e, Considered(e));
    SortSorts(found);
    FoundAreClimbs(d, e, c);
    assert |multiset(Sort(found))| == |Sort(found)| && |multiset(found)| == |found|;
    assert forall x :: x in Sort(found) <==> x in multiset(Sort(found));
    assert c in found <==> c in multiset(found);
    if c in Sort(found) {
      var i :| 0 <= i < |Sort(found)| && Sort(found)[i] == c;
    }
  }
}
