/**
 What OSM tags say about a way's surface (enrichment/quality.py), and the length-weighted account of
 a route's surface that is made of it.
 */
module SurfaceQuality {
  import opened Common
  import WayMatching

  // ---------------------------------------------------------------- one way

  datatype Category = Paved | Masonry | Compacted | Loose | NaturalSoft

  datatype Evidence = Explicit | Inferred

  datatype WayClass = WayClass(
    category: Option<Category>, source: Option<Evidence>, conflict: bool, highway: Option<string>, access: Option<string>)

  /** A tag's value; anything that is no text says nothing. */
  datatype Tag = Text(text: string) | Other

  type Tags = map<string, Tag>

  function BeforeColon(s: string): string {
    if s == "" || s[0] == ':' then "" else [s[0]] + BeforeColon(s[1..])
  }

  /** Lower-cased, without spaces around it and without a colon suffix. */
  function Normalized(s: string): string {
    BeforeColon(Lower(Trim(s, PySpace)))
  }

  function TagText(tags: Tags, key: string): Option<string> {
    if key in tags && tags[key].Text? && TrimStart(tags[key].text, PySpace) != "" then Some(tags[key].text) else None
  }

  function TriState(tags: Tags, key: string): Option<bool> {
    if key !in tags || tags[key].Other? then None
    else
      var v := Normalized(tags[key].text);
      if v == "yes" || v == "true" then Some(true)
      else if v == "no" || v == "false" then Some(false)
      else None
  }

  function SurfaceTaxonomy(v: string): Option<Category> {
    if v in ["asphalt", "paved", "concrete"] then Some(Paved)
    else if v in ["paving_stones", "sett", "cobblestone", "blockstone", "metal", "wood"] then Some(Masonry)
    else if v in ["compacted", "fine_gravel"] then Some(Compacted)
    else if v in ["gravel", "grit", "pebblestone", "unhewn_cobblestone"] then Some(Loose)
    else if v in ["ground", "dirt", "earth", "sand", "grass", "grass_paver", "mud", "rock"] then Some(NaturalSoft)
    else None
  }

  function TracktypeTaxonomy(v: string): Option<Category> {
    if v == "grade1" then Some(Paved)
    else if v == "grade2" then Some(Compacted)
    else if v == "grade3" then Some(Loose)
    else if v == "grade4" || v == "grade5" then Some(NaturalSoft)
    else None
  }

  function SurfaceSays(tags: Tags): Option<Category> {
    match TagText(tags, "surface") case None => None case Some(s) => SurfaceTaxonomy(Normalized(s))
  }

  function TracktypeSays(tags: Tags): Option<Category> {
    match TagText(tags, "tracktype") case None => None case Some(s) => TracktypeTaxonomy(Normalized(s))
  }

  predicate Hard(c: Category) {
    c == Paved || c == Masonry
  }

  predicate Soft(c: Category) {
    c == Loose || c == NaturalSoft
  }

  predicate HasConflict(paved: Option<bool>, native: Option<bool>, surface: Option<Category>) {
    if paved == Some(true) && native == Some(true) then true
    else if surface.None? then false
    else if paved == Some(true) && Soft(surface.value) then true
    else if paved == Some(false) && Hard(surface.value) then true
    else native == Some(true) && Hard(surface.value)
  }

  function ClassifyWay(tags: Tags): WayClass {
    var highway := TagText(tags, "highway");
    var accessTag := TagText(tags, "access");
    var access := if accessTag.Some? then Some(Normalized(accessTag.value)) else None;
    var surface, tracktype := SurfaceSays(tags), TracktypeSays(tags);
    var paved, native := TriState(tags, "paved"), TriState(tags, "native");
    if HasConflict(paved, native, surface) then WayClass(None, None, true, highway, access)
    else if surface.Some? then WayClass(surface, Some(Explicit), false, highway, access)
    else if tracktype.Some? then WayClass(tracktype, Some(Inferred), false, highway, access)
    else if paved == Some(true) then WayClass(Some(Paved), Some(Inferred), false, highway, access)
    else if native == Some(true) then WayClass(Some(NaturalSoft), Some(Inferred), false, highway, access)
    else WayClass(None, None, false, highway, access)
  }

  /** Evidence of one kind and the other, as tags give it: what each says the surface is. */
  predicate SaysHard(tags: Tags) {
    TriState(tags, "paved") == Some(true) || (SurfaceSays(tags).Some? && Hard(SurfaceSays(tags).value))
  }

  predicate SaysNotHard(tags: Tags) {
    TriState(tags, "native") == Some(true) || (SurfaceSays(tags).Some? && Soft(SurfaceSays(tags).value))
  }

  /** A conflict is hard evidence against soft evidence, or `paved=no` against a hard surface; it leaves no category. */
  lemma ConflictIsContradiction(tags: Tags)
    ensures var way := ClassifyWay(tags);
            && (way.conflict <==>
                 (SaysHard(tags) && SaysNotHard(tags))
                 || (TriState(tags, "paved") == Some(false) && SurfaceSays(tags).Some? && Hard(SurfaceSays(tags).value)))
            && (way.conflict ==> way.category.None?)
            && (way.category.None? <==> way.source.None?)
            && (way.source == Some(Explicit) ==> way.category == SurfaceSays(tags))
            && (way.source == Some(Inferred) ==> SurfaceSays(tags).None?)
  {
  }

  /** The one way a way tagged `paved=no` is still reported as hard: a track of grade 1 without a known surface. */
  lemma HardDespiteUnpaved(tags: Tags)
    requires TriState(tags, "paved") == Some(false)
    ensures var way := ClassifyWay(tags);
            way.category.Some? && Hard(way.category.value) <==> SurfaceSays(tags).None? && TracktypeSays(tags) == Some(Paved)
  {
  }

  // ---------------------------------------------------------------- sums over a map

  ghost function Total<K>(m: map<K, real>): real {
    if m == map[] then 0.0
    else var k :| k in m; m[k] + Total(m - {k})
  }

  lemma {:induction false} TotalWithout<K>(m: map<K, real>, k: K)
    requires k in m
    ensures Total(m) == m[k] + Total(m - {k})
    decreases |m|
  {
    var first :| first in m && Total(m) == m[first] + Total(m - {first});
    if first != k {
      var less := m - {first};
      TotalWithout(less, k);
      assert less - {k} == m - {k} - {first};
      TotalWithout(m - {k}, first);
    }
  }

  function Added<K>(m: map<K, real>, k: K, length: real): map<K, real> {
    m[k := (if k in m then m[k] else 0.0) + length]
  }

  lemma TotalAdded<K>(m: map<K, real>, k: K, length: real)
    ensures Total(Added(m, k, length)) == Total(m) + length
  {
    var more := Added(m, k, length);
    TotalWithout(more, k);
    assert more - {k} == m - {k};
    if k in m {
      TotalWithout(m, k);
    } else {
      assert m - {k} == m;
    }
  }

  function Divided<K>(m: map<K, real>, whole: real): map<K, real>
    requires whole > 0.0
  {
    map k | k in m :: m[k] / whole
  }

  lemma EmptyTotal<K>()
    ensures Total<K>(map[]) == 0.0
  {
  }

  lemma QuotientsAdd(x: real, y: real, whole: real)
    requires whole > 0.0
    ensures x / whole + y / whole == (x + y) / whole
  {
  }

  lemma QuotientsKeepOrder(x: real, y: real, whole: real)
    requires whole > 0.0 && x <= y
    ensures x / whole <= y / whole
  {
    var gap := (y - x) / whole;
    assert gap * whole == y - x;
    QuotientsAdd(x, y - x, whole);
  }

  lemma PartsOfWhole(x: real, y: real, whole: real)
    requires whole > 0.0 && x + y == whole
    ensures x / whole + y / whole == 1.0 && whole / whole == 1.0 && 0.0 / whole == 0.0
  {
    QuotientsAdd(x, y, whole);
  }

  lemma {:induction false} TotalDivided<K>(m: map<K, real>, whole: real)
    requires whole > 0.0
    ensures Total(Divided(m, whole)) == Total(m) / whole
    decreases |m|
  {
    hide Total;
    if m == map[] {
      EmptyTotal<K>();
      assert Divided(m, whole) == map[];
    } else {
      var k :| k in m;
      TotalWithout(m, k);
      TotalDivided(m - {k}, whole);
      DividedWithout(m, k, whole);
      QuotientsAdd(m[k], Total(m - {k}), whole);
    }
  }

  lemma DividedWithout<K>(m: map<K, real>, k: K, whole: real)
    requires whole > 0.0 && k in m
    ensures Total(Divided(m, whole)) == m[k] / whole + Total(Divided(m - {k}, whole))
  {
    hide Total;
    TotalWithout(Divided(m, whole), k);
    assert Divided(m, whole) - {k} == Divided(m - {k}, whole);
  }

  // ---------------------------------------------------------------- the account of a route

  /** A stretch of the route and the class of the way it was matched to, if any. */
  datatype Segment = Segment(length: real, way: Option<WayClass>)

  datatype Account = Account(
    coverage: map<Category, real>, highways: map<string, real>, access: map<string, real>,
    unknown: real, inferred: real, conflict: real)
  {
    /** An empty text counts as no tag. */
    static function Noted(m: map<string, real>, value: Option<string>, length: real): map<string, real> {
      if value.Some? && value.value != "" then Added(m, value.value, length) else m
    }

    function Plus(s: Segment): Account {
      if s.way.None? then this.(unknown := unknown + s.length)
      else
        var way := s.way.value;
        var seen := this.(highways := Noted(highways, way.highway, s.length), access := Noted(access, way.access, s.length));
        if way.conflict then seen.(conflict := conflict + s.length, unknown := unknown + s.length)
        else if way.category.Some? then
          seen.(coverage := Added(coverage, way.category.value, s.length),
                inferred := if way.source == Some(Inferred) then inferred + s.length else inferred)
        else seen.(unknown := unknown + s.length)
    }
  }

  const NOTHING: Account := Account(map[], map[], map[], 0.0, 0.0, 0.0)

  function AccountOf(segments: seq<Segment>): Account {
    if segments == [] then NOTHING else AccountOf(segments[..|segments| - 1]).Plus(segments[|segments| - 1])
  }

  function Length(segments: seq<Segment>): real {
    if segments == [] then 0.0 else Length(segments[..|segments| - 1]) + segments[|segments| - 1].length
  }

  datatype Summary = Summary(total: real, shares: Account)

  function SummaryOf(segments: seq<Segment>): Summary {
    var total := Length(segments);
    if total <= 0.0 then Summary(0.0, NOTHING.(unknown := 1.0))
    else
      var a := AccountOf(segments);
      Summary(total, Account(Divided(a.coverage, total), Divided(a.highways, total), Divided(a.access, total),
                             a.unknown / total, a.inferred / total, a.conflict / total))
  }

  method BuildSummary(segments: seq<Segment>) returns (r: Summary)
    ensures r == SummaryOf(segments)
  {
    var total := 0.0;
    for n := 0 to |segments|
      invariant total == Length(segments[..n])
    {
      assert segments[..n + 1][..n] == segments[..n];
      total := total + segments[n].length;
    }
    assert segments[..|segments|] == segments;
    if total <= 0.0 {
      return Summary(0.0, NOTHING.(unknown := 1.0));
    }
    var coverage: map<Category, real>, highways: map<string, real>, access: map<string, real> := map[], map[], map[];
    var unknown, inferred, conflict := 0.0, 0.0, 0.0;
    for n := 0 to |segments|
      invariant Account(coverage, highways, access, unknown, inferred, conflict) == AccountOf(segments[..n])
    {
      assert segments[..n + 1][..n] == segments[..n];
      var length := segments[n].length;
      if segments[n].way.None? {
        unknown := unknown + length;
        continue;
      }
      var way := segments[n].way.value;
      highways := Account.Noted(highways, way.highway, length);
      access := Account.Noted(access, way.access, length);
      if way.conflict {
        conflict := conflict + length;
        unknown := unknown + length;
      } else if way.category.Some? {
        coverage := Added(coverage, way.category.value, length);
        if way.source == Some(Inferred) {
          inferred := inferred + length;
        }
      } else {
        unknown := unknown + length;
      }
    }
    r := Summary(total, Account(Divided(coverage, total), Divided(highways, total), Divided(access, total),
                                unknown / total, inferred / total, conflict / total));
  }

  /** All of the length is accounted for once; no part of it counts for more than it can. */
  lemma {:induction false} AccountBalances(segments: seq<Segment>)
    requires forall s <- segments :: s.length >= 0.0
    ensures var a := AccountOf(segments);
            && Total(a.coverage) + a.unknown == Length(segments)
            && 0.0 <= a.conflict <= a.unknown && 0.0 <= a.inferred <= Total(a.coverage)
            && Total(a.highways) <= Length(segments) && Total(a.access) <= Length(segments)
  {
    if segments != [] {
      var before, s := segments[..|segments| - 1], segments[|segments| - 1];
      AccountBalances(before);
      var a := AccountOf(before);
      if s.way.Some? {
        var way := s.way.value;
        if way.category.Some? {
          TotalAdded(a.coverage, way.category.value, s.length);
        }
        NotedAdds(a.highways, way.highway, s.length);
        NotedAdds(a.access, way.access, s.length);
      }
    }
  }

  lemma NotedAdds(m: map<string, real>, value: Option<string>, length: real)
    requires length >= 0.0
    ensures Total(Account.Noted(m, value, length)) <= Total(m) + length
  {
    if value.Some? && value.value != "" {
      TotalAdded(m, value.value, length);
    }
  }

  /** The shares of the known categories and the unknown share are all of the route, whatever its tags. */
  lemma SharesAddUp(segments: seq<Segment>)
    requires forall s <- segments :: s.length >= 0.0
    ensures var a := SummaryOf(segments).shares;
            && Total(a.coverage) + a.unknown == 1.0
            && 0.0 <= a.conflict <= a.unknown && 0.0 <= a.inferred <= Total(a.coverage)
            && Total(a.highways) <= 1.0 && Total(a.access) <= 1.0
  {
    hide Total, Length, AccountOf, Divided;
    var total, a := Length(segments), AccountOf(segments);
    EmptyTotal<Category>();
    EmptyTotal<string>();
    if total > 0.0 {
      AccountBalances(segments);
      TotalDivided(a.coverage, total);
      TotalDivided(a.highways, total);
      TotalDivided(a.access, total);
      PartsOfWhole(Total(a.coverage), a.unknown, total);
      QuotientsKeepOrder(0.0, a.conflict, total);
      QuotientsKeepOrder(a.conflict, a.unknown, total);
      QuotientsKeepOrder(0.0, a.inferred, total);
      QuotientsKeepOrder(a.inferred, Total(a.coverage), total);
      QuotientsKeepOrder(Total(a.highways), total, total);
      QuotientsKeepOrder(Total(a.access), total, total);
    }
  }

  // ---------------------------------------------------------------- what each share measures

  function LengthWhere(segments: seq<Segment>, test: Segment -> bool): real {
    if segments == [] then 0.0
    else
      var last := segments[|segments| - 1];
      LengthWhere(segments[..|segments| - 1], test) + (if test(last) then last.length else 0.0)
  }

  function Known(c: Category): Segment -> bool {
    (s: Segment) => s.way.Some? && !s.way.value.conflict && s.way.value.category == Some(c)
  }

  function OnRoad(value: string): Segment -> bool {
    (s: Segment) => s.way.Some? && s.way.value.highway == Some(value) && value != ""
  }

  function WithAccess(value: string): Segment -> bool {
    (s: Segment) => s.way.Some? && s.way.value.access == Some(value) && value != ""
  }

  /** What is entered for a key, nothing counting as no length. */
  function Entry<K>(m: map<K, real>, k: K): real {
    if k in m then m[k] else 0.0
  }

  /** The entry of a category measures the length of its segments, and is there when there are any. */
  lemma {:induction false} CoverageMeasures(segments: seq<Segment>, c: Category)
    ensures Entry(AccountOf(segments).coverage, c) == LengthWhere(segments, Known(c))
    ensures c in AccountOf(segments).coverage <==> exists s <- segments :: Known(c)(s)
  {
    if segments != [] {
      var before, s := segments[..|segments| - 1], segments[|segments| - 1];
      CoverageMeasures(before, c);
      assert segments == before + [s];
    }
  }

  /** So do the entries of a road class and of an access value. */
  lemma {:induction false} RoadsMeasure(segments: seq<Segment>, value: string)
    ensures Entry(AccountOf(segments).highways, value) == LengthWhere(segments, OnRoad(value))
  {
    if segments != [] {
      RoadsMeasure(segments[..|segments| - 1], value);
    }
  }

  lemma {:induction false} AccessMeasures(segments: seq<Segment>, value: string)
    ensures Entry(AccountOf(segments).access, value) == LengthWhere(segments, WithAccess(value))
  {
    if segments != [] {
      AccessMeasures(segments[..|segments| - 1], value);
    }
  }

  /** The unknown length is that without a way, with contradictory tags or without evidence. */
  lemma {:induction false} UnknownMeasures(segments: seq<Segment>)
    ensures AccountOf(segments).unknown
         == LengthWhere(segments, (s: Segment) => s.way.None? || s.way.value.conflict || s.way.value.category.None?)
    ensures AccountOf(segments).conflict == LengthWhere(segments, (s: Segment) => s.way.Some? && s.way.value.conflict)
  {
    if segments != [] {
      UnknownMeasures(segments[..|segments| - 1]);
    }
  }

  // ---------------------------------------------------------------- from geometry to account

  /** A stretch of the route line: its length and the midpoint it is matched by. */
  datatype Stretch = Stretch(length: real, midpoint: WayMatching.Coordinate)

  /** The stretch counts for the tags of the way nearest to its midpoint, and of no other. */
  ghost predicate CountsFor(perLon: WayMatching.Globe, ways: seq<WayMatching.Way<Tags>>, tolerance: real, stretch: Stretch, segment: Segment)
    requires WayMatching.Mapped(ways)
  {
    && segment.length == stretch.length
    && exists nearest: Option<nat> :: WayMatching.RightMatch(perLon, stretch.midpoint, ways, tolerance, nearest)
         && segment.way == if nearest.Some? && nearest.value < |ways| then Some(ClassifyWay(ways[nearest.value].tags)) else None
  }

  /** The summary of a route among the ways around it; with no ways at all everything is unknown. */
  method Summarize(perLon: WayMatching.Globe, route: seq<Stretch>, ways: seq<WayMatching.Way<Tags>>, tolerance: real)
    returns (r: Summary, ghost segments: seq<Segment>)
    requires WayMatching.Shrinking(perLon) && WayMatching.Mapped(ways) && tolerance <= WayMatching.WIDEST
    requires forall s <- route :: s.length >= 0.0
    ensures |segments| == |route|
    ensures forall i :: 0 <= i < |route| ==> CountsFor(perLon, ways, tolerance, route[i], segments[i])
    ensures ways != [] ==> r == SummaryOf(segments)
    ensures ways == [] ==> r.shares == NOTHING.(unknown := 1.0) && r.total == Length(segments)
    ensures Total(r.shares.coverage) + r.shares.unknown == 1.0
  {
    hide WayMatching.RightMatch, WayMatching.Shrinking, ClassifyWay, SummaryOf, AccountOf;
    var midpoints := seq(|route|, i requires 0 <= i < |route| => route[i].midpoint);
    var matches := WayMatching.MatchSegments(perLon, midpoints, ways, tolerance);
    var found := matches.value;
    var classified: seq<Segment> := [];
    for n := 0 to |route|
      invariant |classified| == n
      invariant forall i :: 0 <= i < n ==> CountsFor(perLon, ways, tolerance, route[i], classified[i])
    {
      assert WayMatching.RightMatch(perLon, route[n].midpoint, ways, tolerance, found[n]);
      InRange(perLon, route[n].midpoint, ways, tolerance, found[n]);
      var way := if found[n].Some? then Some(ClassifyWay(ways[found[n].value].tags)) else None;
      classified := classified + [Segment(route[n].length, way)];
    }
    segments := classified;
    if ways == [] {
      var total := 0.0;
      for n := 0 to |classified|
        invariant total == Length(classified[..n])
      {
        assert classified[..n + 1][..n] == classified[..n];
        total := total + classified[n].length;
      }
      assert classified[..|classified|] == classified;
      EmptyTotal<Category>();
      r := Summary(total, NOTHING.(unknown := 1.0));
    } else {
      r := BuildSummary(classified);
      SharesAddUp(classified);
    }
  }

  lemma InRange(perLon: WayMatching.Globe, p: WayMatching.Coordinate, ways: seq<WayMatching.Way<Tags>>, tolerance: real, found: Option<nat>)
    requires WayMatching.Mapped(ways) && WayMatching.RightMatch(perLon, p, ways, tolerance, found)
    ensures found.Some? ==> found.value < |ways|
  {
  }
}
