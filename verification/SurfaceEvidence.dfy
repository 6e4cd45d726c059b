/**
 What a way's tags say of its surface (enrichment/quality.py and the vocabulary in config.py): how values
 are spelled, which words mean which category, which evidence wins, and what the shares of a route measure.
 */
module SurfaceEvidence {
  import opened Common
  import opened SurfaceQuality

  // ------------------------------------------------------------------ how a value may be spelled

  lemma {:induction false} LowerIs(s: string)
    ensures |Lower(s)| == |s| && forall i :: 0 <= i < |s| ==> Lower(s)[i] == LowerChar(s[i])
  {
    if s != "" {
      LowerIs(s[1..]);
    }
  }

  lemma {:induction false} BeforeColonIs(word: string, tail: string)
    requires ':' !in word && (tail == "" || tail[0] == ':')
    ensures BeforeColon(word + tail) == word
  {
    if word == "" {
      assert word + tail == tail;
    } else {
      assert (word + tail)[1..] == word[1..] + tail;
      BeforeColonIs(word[1..], tail);
    }
  }

  /** A word of a tag value: something, without spaces and colons. */
  predicate Word(s: string) {
    s != "" && ':' !in s && forall i :: 0 <= i < |s| ==> !PySpace(s[i])
  }

  /** The word with capitals for some of its small letters. */
  predicate Writes(written: string, word: string) {
    && |written| == |word|
    && (forall i :: 0 <= i < |word| ==> !('A' <= word[i] <= 'Z'))
    && forall i :: 0 <= i < |word| ==>
         written[i] == word[i] || ('a' <= word[i] <= 'z' && word[i] as int == written[i] as int + 32)
  }

  lemma WrittenIsLowered(written: string, word: string)
    requires Writes(written, word)
    ensures Lower(written) == word
  {
    LowerIs(written);
  }

  /** Main result: spaces around a value, capital letters and what follows a colon do not matter. */
  lemma SpellingDoesNotMatter(a: string, written: string, tail: string, b: string, word: string)
    requires Blank(a, PySpace) && Blank(b, PySpace) && Word(written) && Writes(written, word)
    requires tail == "" || (tail[0] == ':' && !PySpace(tail[|tail| - 1]))
    ensures Normalized(a + (written + tail) + b) == word
  {
    WrittenIsLowered(written, word);
    NormalizedIsLowered(a, written, tail, b);
    hide *;
  }

  lemma NormalizedIsLowered(a: string, word: string, tail: string, b: string)
    requires Blank(a, PySpace) && Blank(b, PySpace) && Word(word)
    requires tail == "" || (tail[0] == ':' && !PySpace(tail[|tail| - 1]))
    ensures Normalized(a + (word + tail) + b) == Lower(word)
  {
    hide Lower, LowerChar, BeforeColon, TrimStart, TrimEnd;
    var s := word + tail;
    assert s[0] == word[0] && (tail != "" ==> s[|s| - 1] == tail[|tail| - 1]) && (tail == "" ==> s[|s| - 1] == word[|word| - 1]);
    assert a + s + b == a + (s + b) && (s + b)[0] == s[0];
    TrimStartIs(a, s + b, PySpace);
    TrimEndIs(s, b, PySpace);
    LoweredParts(word, tail);
    BeforeColonIs(Lower(word), Lower(tail));
  }

  lemma LoweredParts(word: string, tail: string)
    requires ':' !in word && (tail == "" || tail[0] == ':')
    ensures Lower(word + tail) == Lower(word) + Lower(tail) && ':' !in Lower(word)
    ensures Lower(tail) == "" || Lower(tail)[0] == ':'
  {
    LowerIs(word + tail);
    LowerIs(word);
    LowerIs(tail);
    hide Lower;
  }

  // ------------------------------------------------------------------ which words mean what

  /** The words of `surface` and of `tracktype` for each category. */
  function SurfaceWords(c: Category): set<string> {
    match c
    case Paved => {"asphalt", "concrete", "paved"}
    case Masonry => {"blockstone", "cobblestone", "metal", "paving_stones", "sett", "wood"}
    case Compacted => {"compacted", "fine_gravel"}
    case Loose => {"gravel", "grit", "pebblestone", "unhewn_cobblestone"}
    case NaturalSoft => {"dirt", "earth", "grass", "grass_paver", "ground", "mud", "rock", "sand"}
  }

  function TrackWords(c: Category): set<string> {
    match c
    case Paved => {"grade1"}
    case Masonry => {}
    case Compacted => {"grade2"}
    case Loose => {"grade3"}
    case NaturalSoft => {"grade4", "grade5"}
  }

  lemma WordsMean(v: string, c: Category)
    ensures SurfaceTaxonomy(v) == Some(c) <==> v in SurfaceWords(c)
  {
  }

  lemma TrackWordsMean(v: string, c: Category)
    ensures TracktypeTaxonomy(v) == Some(c) <==> v in TrackWords(c)
  {
  }

  /** The tag holds this text and more than spaces. */
  predicate Says(tags: Tags, key: string, text: string) {
    key in tags && tags[key] == Text(text) && !Blank(text, PySpace)
  }

  lemma {:induction false} TrimmedAway(s: string)
    ensures TrimStart(s, PySpace) == "" <==> Blank(s, PySpace)
  {
    if s != "" && PySpace(s[0]) {
      TrimmedAway(s[1..]);
      assert Blank(s, PySpace) <==> Blank(s[1..], PySpace) by {
        assert forall i :: 0 <= i < |s[1..]| ==> s[1..][i] == s[i + 1];
        if Blank(s[1..], PySpace) {
          forall i | 0 <= i < |s| ensures PySpace(s[i]) {
            assert i > 0 ==> s[i] == s[1..][i - 1];
          }
        }
      }
    }
  }

  lemma TagTextIs(tags: Tags, key: string)
    ensures TagText(tags, key).Some? ==> Says(tags, key, TagText(tags, key).value)
    ensures TagText(tags, key).None? ==> forall text :: !Says(tags, key, text)
  {
    if key in tags && tags[key].Text? {
      TrimmedAway(tags[key].text);
    }
  }

  lemma YesAndNo(tags: Tags, key: string)
    ensures TriState(tags, key) == Some(true) <==>
              key in tags && tags[key].Text? && Normalized(tags[key].text) in {"yes", "true"}
    ensures TriState(tags, key) == Some(false) <==>
              key in tags && tags[key].Text? && Normalized(tags[key].text) in {"no", "false"}
  {
    hide Normalized;
  }

  // ------------------------------------------------------------------ which evidence wins

  predicate SurfaceIs(tags: Tags, c: Category) {
    "surface" in tags && tags["surface"].Text? && Normalized(tags["surface"].text) in SurfaceWords(c)
  }

  predicate TrackIs(tags: Tags, c: Category) {
    "tracktype" in tags && tags["tracktype"].Text? && Normalized(tags["tracktype"].text) in TrackWords(c)
  }

  predicate Yes(tags: Tags, key: string) {
    key in tags && tags[key].Text? && Normalized(tags[key].text) in {"yes", "true"}
  }

  predicate No(tags: Tags, key: string) {
    key in tags && tags[key].Text? && Normalized(tags[key].text) in {"no", "false"}
  }

  /** Hard ground, or loose or soft ground; compacted ground is neither. */
  predicate SurfaceIsHard(tags: Tags) {
    SurfaceIs(tags, Paved) || SurfaceIs(tags, Masonry)
  }

  predicate SurfaceIsSoft(tags: Tags) {
    SurfaceIs(tags, Loose) || SurfaceIs(tags, NaturalSoft)
  }

  /** Main result: the tags contradict each other in exactly these four ways. */
  lemma ContradictionIff(tags: Tags)
    ensures ClassifyWay(tags).conflict <==>
              || (Yes(tags, "paved") && Yes(tags, "native"))
              || (Yes(tags, "paved") && SurfaceIsSoft(tags))
              || (No(tags, "paved") && SurfaceIsHard(tags))
              || (Yes(tags, "native") && SurfaceIsHard(tags))
  {
    hide SurfaceIs, TrackIs, SurfaceSays, TracktypeSays, TriState, TagText, Normalized;
    YesAndNo(tags, "paved");
    YesAndNo(tags, "native");
    SurfaceSaysIs(tags, Paved);
    SurfaceSaysIs(tags, Masonry);
    SurfaceSaysIs(tags, Loose);
    SurfaceSaysIs(tags, NaturalSoft);
    if SurfaceSays(tags).Some? {
      SurfaceSaysIs(tags, SurfaceSays(tags).value);
    }
  }

  /**
   Main result: without a contradiction a known word of the surface tag decides, as explicit evidence; otherwise
   a known track type, otherwise `paved=yes`, otherwise `native=yes`, as inferred evidence; otherwise nothing is known.
   */
  lemma EvidenceWinsInOrder(tags: Tags, c: Category)
    requires !ClassifyWay(tags).conflict
    ensures var way := ClassifyWay(tags);
            && (way.category == Some(c) && way.source == Some(Explicit) <==> SurfaceIs(tags, c))
            && (way.category == Some(c) && way.source == Some(Inferred) <==>
                && (forall d :: !SurfaceIs(tags, d))
                && (TrackIs(tags, c)
                    || ((forall d :: !TrackIs(tags, d))
                        && (if Yes(tags, "paved") then c == Paved else Yes(tags, "native") && c == NaturalSoft))))
  {
    hide SurfaceIs, TrackIs, SurfaceSays, TracktypeSays, TriState, HasConflict, TagText, Normalized;
    forall d ensures SurfaceSays(tags) == Some(d) <==> SurfaceIs(tags, d) { SurfaceSaysIs(tags, d); }
    forall d ensures TracktypeSays(tags) == Some(d) <==> TrackIs(tags, d) { TrackSaysIs(tags, d); }
    YesAndNo(tags, "paved");
    YesAndNo(tags, "native");
  }

  lemma SpacesSayNothing(s: string)
    requires Blank(s, PySpace)
    ensures Normalized(s) == ""
  {
    TrimmedAway(s);
  }

  lemma SurfaceSaysIs(tags: Tags, c: Category)
    ensures SurfaceSays(tags) == Some(c) <==> SurfaceIs(tags, c)
  {
    hide Normalized, SurfaceTaxonomy;
    if "surface" in tags && tags["surface"].Text? {
      var text := tags["surface"].text;
      TrimmedAway(text);
      WordsMean(Normalized(text), c);
      if Blank(text, PySpace) { SpacesSayNothing(text); }
    }
  }

  lemma TrackSaysIs(tags: Tags, c: Category)
    ensures TracktypeSays(tags) == Some(c) <==> TrackIs(tags, c)
  {
    hide Normalized, TracktypeTaxonomy;
    if "tracktype" in tags && tags["tracktype"].Text? {
      var text := tags["tracktype"].text;
      TrimmedAway(text);
      TrackWordsMean(Normalized(text), c);
      if Blank(text, PySpace) { SpacesSayNothing(text); }
    }
  }

  /** Road class and access are carried through whatever the surface says. */
  lemma RoadAndAccessAreKept(tags: Tags)
    ensures var way := ClassifyWay(tags);
            && (forall text :: way.highway == Some(text) <==> Says(tags, "highway", text))
            && (way.access.Some? <==> exists text :: Says(tags, "access", text))
            && (forall text :: Says(tags, "access", text) ==> way.access == Some(Normalized(text)))
  {
    hide Normalized, HasConflict, SurfaceSays, TracktypeSays, TagText, TriState;
    TagTextIs(tags, "highway");
    TagTextIs(tags, "access");
  }

  // ------------------------------------------------------------------ what the shares measure

  lemma {:induction false} InferredMeasures(segments: seq<Segment>)
    ensures AccountOf(segments).inferred
         == LengthWhere(segments, (s: Segment) =>
              s.way.Some? && !s.way.value.conflict && s.way.value.category.Some? && s.way.value.source == Some(Inferred))
  {
    if segments != [] {
      InferredMeasures(segments[..|segments| - 1]);
    }
  }

  /** Main result: every share of a route with a length is what it measures, divided by the length. */
  lemma SharesMeasure(segments: seq<Segment>, c: Category, road: string)
    requires Length(segments) > 0.0
    ensures var total, shares := Length(segments), SummaryOf(segments).shares;
            && SummaryOf(segments).total == total
            && Entry(shares.coverage, c) == LengthWhere(segments, SurfaceQuality.Known(c)) / total
            && Entry(shares.highways, road) == LengthWhere(segments, OnRoad(road)) / total
            && Entry(shares.access, road) == LengthWhere(segments, WithAccess(road)) / total
            && shares.unknown == AccountOf(segments).unknown / total
            && shares.conflict == AccountOf(segments).conflict / total
            && shares.inferred == AccountOf(segments).inferred / total
  {
    CoverageMeasures(segments, c);
    RoadsMeasure(segments, road);
    AccessMeasures(segments, road);
    NoShare(Length(segments));
    hide AccountOf, LengthWhere, Length;
  }

  lemma NoShare(total: real)
    requires total > 0.0
    ensures 0.0 / total == 0.0
  {
  }

  /** A route of no length has no shares: all of it is unknown. */
  lemma NoLengthIsUnknown(segments: seq<Segment>)
    requires Length(segments) <= 0.0
    ensures SummaryOf(segments) == Summary(0.0, Account(map[], map[], map[], 1.0, 0.0, 0.0))
  {
  }
}
