/**
 * Colouring a route by surface or traffic (frontend/stretches.js). The server names stretches by
 * vertex range; the page takes the usable ones and merges touching neighbours of one class into
 * pieces. Distances along the line are reals, `cumulative` as the page sums them.
 */
module Stretches {
  import opened Common

  /** A stretch as it came: an index that is not a whole number is None. */
  datatype Raw = Raw(fromIndex: Option<int>, toIndex: Option<int>, field: string)

  datatype Stretch = Stretch(fromIndex: nat, toIndex: nat, field: string)

  /** [longitude, latitude], and turned round for the map. */
  datatype Coord = Coord(lon: real, lat: real)
  datatype LatLng = LatLng(lat: real, lng: real)

  datatype Line = Line(coords: seq<Coord>, cumulative: seq<real>)

  datatype Piece = Piece(key: string, latlngs: seq<LatLng>, fromIndex: nat, toIndex: nat, fromM: real, toM: real)

  /** Class keys of a mode; the last is for what is not mapped. */
  type Classes = seq<string>

  ghost predicate ValidLine(line: Line) {
    && |line.cumulative| == |line.coords| >= 2
    && forall i, j :: 0 <= i <= j < |line.cumulative| ==> line.cumulative[i] <= line.cumulative[j]
  }

  function ClassOf(classes: Classes, field: string): string
    requires classes != []
  {
    if field in classes then field else classes[|classes| - 1]
  }

  function Turned(coords: seq<Coord>): (r: seq<LatLng>)
    ensures |r| == |coords|
    ensures forall i :: 0 <= i < |coords| ==> r[i] == LatLng(coords[i].lat, coords[i].lon)
  {
    seq(|coords|, i requires 0 <= i < |coords| => LatLng(coords[i].lat, coords[i].lon))
  }

  // ------------------------------------------------------------------ usable stretches

  predicate Fits(raw: Raw, last: nat, vertexCount: nat) {
    raw.fromIndex.Some? && raw.toIndex.Some? && last <= raw.fromIndex.value < raw.toIndex.value < vertexCount
  }

  /** The stretches taken from left to right, each from where the one before ended. */
  function UsableFrom(raws: seq<Raw>, last: nat, vertexCount: nat): seq<Stretch> {
    if raws == [] then []
    else if Fits(raws[0], last, vertexCount) then
      [Stretch(raws[0].fromIndex.value, raws[0].toIndex.value, raws[0].field)]
      + UsableFrom(raws[1..], raws[0].toIndex.value, vertexCount)
    else UsableFrom(raws[1..], last, vertexCount)
  }

  method Usable(raws: seq<Raw>, vertexCount: nat) returns (out: seq<Stretch>)
    ensures out == UsableFrom(raws, 0, vertexCount)
  {
    out := [];
    var last := 0;
    for i := 0 to |raws|
      invariant 0 <= last
      invariant out + UsableFrom(raws[i..], last, vertexCount) == UsableFrom(raws, 0, vertexCount)
    {
      assert raws[i..][0] == raws[i] && raws[i..][1..] == raws[i + 1..];
      if Fits(raws[i], last, vertexCount) {
        var s := Stretch(raws[i].fromIndex.value, raws[i].toIndex.value, raws[i].field);
        ConcatAssociates(out, [s], UsableFrom(raws[i + 1..], s.toIndex, vertexCount));
        out := out + [s];
        last := s.toIndex;
      }
    }
    assert raws[|raws|..] == [];
    assert out + [] == out;
  }

  /** Inside the line, in order, no two overlapping. */
  ghost predicate InOrder(stretches: seq<Stretch>, last: nat, vertexCount: nat) {
    && (forall i :: 0 <= i < |stretches| ==> last <= stretches[i].fromIndex < stretches[i].toIndex < vertexCount)
    && (forall i, j :: 0 <= i < j < |stretches| ==> stretches[i].toIndex <= stretches[j].fromIndex)
  }

  function AsRaw(stretches: seq<Stretch>): seq<Raw> {
    if stretches == [] then []
    else [Raw(Some(stretches[0].fromIndex), Some(stretches[0].toIndex), stretches[0].field)] + AsRaw(stretches[1..])
  }

  /** Whatever the server sent, the usable stretches are in order. */
  lemma {:induction false} UsableInOrder(raws: seq<Raw>, last: nat, vertexCount: nat)
    ensures InOrder(UsableFrom(raws, last, vertexCount), last, vertexCount)
  {
    if raws == [] {
    } else if Fits(raws[0], last, vertexCount) {
      UsableInOrder(raws[1..], raws[0].toIndex.value, vertexCount);
    } else {
      UsableInOrder(raws[1..], last, vertexCount);
    }
  }

  /** And of stretches that are in order none is lost. */
  lemma {:induction false} OrderedAreUsable(stretches: seq<Stretch>, last: nat, vertexCount: nat)
    requires InOrder(stretches, last, vertexCount)
    ensures UsableFrom(AsRaw(stretches), last, vertexCount) == stretches
  {
    if stretches == [] {
    } else {
      var s, raws := stretches[0], AsRaw(stretches);
      assert raws[1..] == AsRaw(stretches[1..]);
      OrderedAreUsable(stretches[1..], s.toIndex, vertexCount);
      assert [s] + stretches[1..] == stretches;
    }
  }

  // ------------------------------------------------------------------ pieces

  function NewPiece(line: Line, key: string, s: Stretch): Piece
    requires |line.cumulative| == |line.coords| && s.fromIndex < s.toIndex < |line.coords|
  {
    Piece(key, Turned(line.coords[s.fromIndex..s.toIndex + 1]), s.fromIndex, s.toIndex,
          line.cumulative[s.fromIndex], line.cumulative[s.toIndex])
  }

  /** A stretch that touches the last piece and has its class makes it longer. */
  predicate Extends(out: seq<Piece>, key: string, s: Stretch) {
    out != [] && out[|out| - 1].key == key && out[|out| - 1].toIndex == s.fromIndex
  }

  function Longer(line: Line, last: Piece, s: Stretch): Piece
    requires |line.cumulative| == |line.coords| && s.fromIndex < s.toIndex < |line.coords|
  {
    last.(latlngs := last.latlngs + Turned(line.coords[s.fromIndex..s.toIndex + 1])[1..],
          toIndex := s.toIndex, toM := line.cumulative[s.toIndex])
  }

  function With(line: Line, out: seq<Piece>, key: string, s: Stretch): seq<Piece>
    requires |line.cumulative| == |line.coords| && s.fromIndex < s.toIndex < |line.coords|
  {
    if Extends(out, key, s) then out[..|out| - 1] + [Longer(line, out[|out| - 1], s)]
    else out + [NewPiece(line, key, s)]
  }

  function PiecesOf(line: Line, classes: Classes, stretches: seq<Stretch>): seq<Piece>
    requires ValidLine(line) && classes != [] && InOrder(stretches, 0, |line.coords|)
  {
    if stretches == [] then []
    else
      var s := stretches[|stretches| - 1];
      With(line, PiecesOf(line, classes, stretches[..|stretches| - 1]), ClassOf(classes, s.field), s)
  }

  lemma InOrderButLast(stretches: seq<Stretch>, vertexCount: nat)
    requires stretches != [] && InOrder(stretches, 0, vertexCount)
    ensures InOrder(stretches[..|stretches| - 1], 0, vertexCount)
  {
  }

  lemma PrefixInOrder(stretches: seq<Stretch>, i: nat, vertexCount: nat)
    requires i <= |stretches| && InOrder(stretches, 0, vertexCount)
    ensures InOrder(stretches[..i], 0, vertexCount)
    ensures i < |stretches| ==> stretches[i].fromIndex < stretches[i].toIndex < vertexCount
  {
  }

  lemma PiecesOfOneMore(line: Line, classes: Classes, stretches: seq<Stretch>, i: nat)
    requires ValidLine(line) && classes != [] && i < |stretches|
    requires InOrder(stretches[..i], 0, |line.coords|) && InOrder(stretches[..i + 1], 0, |line.coords|)
    requires stretches[i].fromIndex < stretches[i].toIndex < |line.coords|
    ensures PiecesOf(line, classes, stretches[..i + 1]) ==
            With(line, PiecesOf(line, classes, stretches[..i]), ClassOf(classes, stretches[i].field), stretches[i])
  {
    hide With, ClassOf;
    assert stretches[..i + 1][..i] == stretches[..i];
  }

  /** The loop body: the last piece made longer, or a new one. */
  method AddStretch(line: Line, out: seq<Piece>, key: string, s: Stretch) returns (more: seq<Piece>)
    requires |line.cumulative| == |line.coords| && s.fromIndex < s.toIndex < |line.coords|
    ensures more == With(line, out, key, s)
  {
    if Extends(out, key, s) {
      var n := |out| - 1;
      var slice := Turned(line.coords[s.fromIndex..s.toIndex + 1]);
      more := out[..n] + [out[n].(latlngs := out[n].latlngs + slice[1..],
                                  toIndex := s.toIndex, toM := line.cumulative[s.toIndex])];
    } else {
      more := out + [NewPiece(line, key, s)];
    }
  }

  /** `pieces`. */
  method Pieces(line: Line, classes: Classes, raws: seq<Raw>) returns (out: seq<Piece>)
    requires ValidLine(line) && classes != []
    ensures InOrder(UsableFrom(raws, 0, |line.coords|), 0, |line.coords|)
    ensures out == PiecesOf(line, classes, UsableFrom(raws, 0, |line.coords|))
  {
    var stretches := Usable(raws, |line.coords|);
    UsableInOrder(raws, 0, |line.coords|);
    hide InOrder, PiecesOf, With, UsableFrom, ClassOf;
    out := [];
    PrefixInOrder(stretches, 0, |line.coords|);
    PiecesOfNone(line, classes);
    assert stretches[..0] == [];
    for i := 0 to |stretches|
      invariant InOrder(stretches[..i], 0, |line.coords|)
      invariant out == PiecesOf(line, classes, stretches[..i])
    {
      PrefixInOrder(stretches, i, |line.coords|);
      PrefixInOrder(stretches, i + 1, |line.coords|);
      PiecesOfOneMore(line, classes, stretches, i);
      out := AddStretch(line, out, ClassOf(classes, stretches[i].field), stretches[i]);
    }
    assert stretches[..|stretches|] == stretches;
  }

  lemma PiecesOfNone(line: Line, classes: Classes)
    requires ValidLine(line) && classes != []
    ensures InOrder([], 0, |line.coords|)
    ensures PiecesOf(line, classes, []) == []
  {
  }

  // ------------------------------------------------------------------ what the pieces are

  /** Exactly the vertices of its range, and the distances at its ends. */
  ghost predicate PieceFits(line: Line, p: Piece)
    requires |line.cumulative| == |line.coords|
  {
    && p.fromIndex < p.toIndex < |line.coords|
    && p.latlngs == Turned(line.coords[p.fromIndex..p.toIndex + 1])
    && p.fromM == line.cumulative[p.fromIndex] && p.toM == line.cumulative[p.toIndex]
  }

  /** In order, disjoint, and no two that could be one. */
  ghost predicate Tiles(line: Line, out: seq<Piece>)
    requires |line.cumulative| == |line.coords|
  {
    && (forall i :: 0 <= i < |out| ==> PieceFits(line, out[i]))
    && (forall i, j :: 0 <= i < j < |out| ==> out[i].toIndex <= out[j].fromIndex)
    && (forall i :: 0 < i < |out| ==> out[i - 1].toIndex == out[i].fromIndex ==> out[i - 1].key != out[i].key)
  }

  lemma LongerFits(line: Line, last: Piece, s: Stretch)
    requires |line.cumulative| == |line.coords| && s.fromIndex < s.toIndex < |line.coords|
    requires PieceFits(line, last) && last.toIndex == s.fromIndex
    ensures PieceFits(line, Longer(line, last, s))
  {
    var longer := Longer(line, last, s);
    assert longer.latlngs == Turned(line.coords[longer.fromIndex..longer.toIndex + 1]);
  }

  lemma WithTiles(line: Line, out: seq<Piece>, key: string, s: Stretch)
    requires |line.cumulative| == |line.coords| && s.fromIndex < s.toIndex < |line.coords|
    requires Tiles(line, out)
    requires out != [] ==> out[|out| - 1].toIndex <= s.fromIndex
    ensures Tiles(line, With(line, out, key, s))
    ensures With(line, out, key, s) != []
    ensures With(line, out, key, s)[|With(line, out, key, s)| - 1].toIndex == s.toIndex
  {
    hide PieceFits;
    if Extends(out, key, s) {
      LongerFits(line, out[|out| - 1], s);
    } else {
      NewPieceFits(line, key, s);
    }
    PieceIsForward(line, out);
  }

  lemma NewPieceFits(line: Line, key: string, s: Stretch)
    requires |line.cumulative| == |line.coords| && s.fromIndex < s.toIndex < |line.coords|
    ensures PieceFits(line, NewPiece(line, key, s))
  {
  }

  lemma PieceIsForward(line: Line, out: seq<Piece>)
    requires |line.cumulative| == |line.coords|
    ensures forall i :: 0 <= i < |out| && PieceFits(line, out[i]) ==> out[i].fromIndex < out[i].toIndex
  {
  }

  /** Main result: for any stretches, the pieces tile part of the route, each as long as it can be. */
  lemma {:induction false} PiecesTile(line: Line, classes: Classes, stretches: seq<Stretch>)
    requires ValidLine(line) && classes != [] && InOrder(stretches, 0, |line.coords|)
    ensures var out := PiecesOf(line, classes, stretches);
            && Tiles(line, out)
            && (out == [] <==> stretches == [])
            && (out != [] ==> out[|out| - 1].toIndex == stretches[|stretches| - 1].toIndex)
  {
    hide Tiles, With, ClassOf, PiecesOf, InOrder;
    if stretches == [] {
      PiecesOfNone(line, classes);
      NoPieces(line);
    } else {
      var n := |stretches| - 1;
      LastInOrder(stretches, |line.coords|);
      PiecesTile(line, classes, stretches[..n]);
      assert stretches[..n + 1] == stretches;
      PiecesOfOneMore(line, classes, stretches, n);
      WithTiles(line, PiecesOf(line, classes, stretches[..n]), ClassOf(classes, stretches[n].field), stretches[n]);
    }
  }

  lemma LastInOrder(stretches: seq<Stretch>, vertexCount: nat)
    requires stretches != [] && InOrder(stretches, 0, vertexCount)
    ensures var n := |stretches| - 1;
            && InOrder(stretches[..n], 0, vertexCount)
            && stretches[n].fromIndex < stretches[n].toIndex < vertexCount
            && (n > 0 ==> stretches[..n][n - 1].toIndex <= stretches[n].fromIndex)
  {
  }

  lemma NoPieces(line: Line)
    requires |line.cumulative| == |line.coords|
    ensures Tiles(line, [])
  {
  }

  // ------------------------------------------------------------------ what the pieces colour

  /** The step from vertex i to the next is drawn in this class. */
  ghost predicate Drawn(out: seq<Piece>, i: nat, key: string) {
    exists k :: 0 <= k < |out| && out[k].key == key && out[k].fromIndex <= i < out[k].toIndex
  }

  /** What a stretch says names a class of the mode, or no class, and then it counts as not mapped. */
  predicate Says(classes: Classes, field: string, key: string)
    requires classes != []
  {
    key in classes && (field == key || (field !in classes && key == classes[|classes| - 1]))
  }

  lemma ClassIsWhatItSays(classes: Classes, field: string, key: string)
    requires classes != []
    ensures Says(classes, field, key) <==> key == ClassOf(classes, field)
  {
  }

  ghost predicate Covered(classes: Classes, stretches: seq<Stretch>, i: nat, key: string)
    requires classes != []
  {
    exists k :: 0 <= k < |stretches| && Says(classes, stretches[k].field, key)
                && stretches[k].fromIndex <= i < stretches[k].toIndex
  }

  lemma WithDraws(line: Line, out: seq<Piece>, key: string, s: Stretch, i: nat, any: string)
    requires |line.cumulative| == |line.coords| && s.fromIndex < s.toIndex < |line.coords|
    requires forall k :: 0 <= k < |out| ==> out[k].fromIndex < out[k].toIndex
    ensures Drawn(With(line, out, key, s), i, any) <==>
            Drawn(out, i, any) || (any == key && s.fromIndex <= i < s.toIndex)
  {
    var longer := With(line, out, key, s);
    var n := |longer| - 1;
    if Drawn(out, i, any) {
      var k :| 0 <= k < |out| && out[k].key == any && out[k].fromIndex <= i < out[k].toIndex;
      assert longer[k].key == any && longer[k].fromIndex <= i < longer[k].toIndex;
    }
    if any == key && s.fromIndex <= i < s.toIndex {
      assert longer[n].key == any && longer[n].fromIndex <= i < longer[n].toIndex;
    }
    if Drawn(longer, i, any) {
      var k :| 0 <= k < |longer| && longer[k].key == any && longer[k].fromIndex <= i < longer[k].toIndex;
      assert k < n ==> longer[k] == out[k];
      assert k == n && Extends(out, key, s) && i < s.fromIndex ==> out[n].key == any && out[n].fromIndex <= i < out[n].toIndex;
    }
  }

  lemma CoveredByLast(classes: Classes, stretches: seq<Stretch>, i: nat, key: string)
    requires classes != [] && stretches != []
    ensures var n := |stretches| - 1;
            Covered(classes, stretches, i, key) <==>
              Covered(classes, stretches[..n], i, key)
              || (key == ClassOf(classes, stretches[n].field) && stretches[n].fromIndex <= i < stretches[n].toIndex)
  {
    hide ClassOf, Says;
    var n := |stretches| - 1;
    ClassIsWhatItSays(classes, stretches[n].field, key);
    assert forall k :: 0 <= k < n ==> stretches[..n][k] == stretches[k];
  }

  /** Main result: merging changes no colour; every step has the class its stretch gives it, or none. */
  lemma {:induction false} PiecesKeepColours(line: Line, classes: Classes, stretches: seq<Stretch>, i: nat, key: string)
    requires ValidLine(line) && classes != [] && InOrder(stretches, 0, |line.coords|)
    ensures Drawn(PiecesOf(line, classes, stretches), i, key) <==> Covered(classes, stretches, i, key)
  {
    if stretches == [] {
    } else {
      hide Drawn, Covered, With, ClassOf, Tiles;
      var n := |stretches| - 1;
      InOrderButLast(stretches, |line.coords|);
      PiecesKeepColours(line, classes, stretches[..n], i, key);
      PiecesTile(line, classes, stretches[..n]);
      TilesAreForward(line, PiecesOf(line, classes, stretches[..n]));
      WithDraws(line, PiecesOf(line, classes, stretches[..n]), ClassOf(classes, stretches[n].field), stretches[n], i, key);
      CoveredByLast(classes, stretches, i, key);
    }
  }

  lemma TilesAreForward(line: Line, out: seq<Piece>)
    requires |line.cumulative| == |line.coords| && Tiles(line, out)
    ensures forall k :: 0 <= k < |out| ==> out[k].fromIndex < out[k].toIndex
  {
  }

  // ------------------------------------------------------------------ lengths

  /** What a class counts for; None stands for all of them. */
  predicate Counts(wanted: Option<string>, key: string) {
    wanted == None || wanted == Some(key)
  }

  function Length(p: Piece): real {
    p.toM - p.fromM
  }

  function TotalM(out: seq<Piece>, wanted: Option<string>): real {
    if out == [] then 0.0
    else TotalM(out[..|out| - 1], wanted)
         + (if Counts(wanted, out[|out| - 1].key) then Length(out[|out| - 1]) else 0.0)
  }

  function StretchesM(line: Line, classes: Classes, stretches: seq<Stretch>, wanted: Option<string>): real
    requires ValidLine(line) && classes != [] && InOrder(stretches, 0, |line.coords|)
  {
    if stretches == [] then 0.0
    else
      var s := stretches[|stretches| - 1];
      StretchesM(line, classes, stretches[..|stretches| - 1], wanted)
      + (if Counts(wanted, ClassOf(classes, s.field)) then line.cumulative[s.toIndex] - line.cumulative[s.fromIndex]
         else 0.0)
  }

  lemma WithTotal(line: Line, out: seq<Piece>, key: string, s: Stretch, wanted: Option<string>)
    requires |line.cumulative| == |line.coords| && s.fromIndex < s.toIndex < |line.coords|
    requires Tiles(line, out)
    ensures TotalM(With(line, out, key, s), wanted) ==
            TotalM(out, wanted)
            + (if Counts(wanted, key) then line.cumulative[s.toIndex] - line.cumulative[s.fromIndex] else 0.0)
  {
    var longer := With(line, out, key, s);
    if Extends(out, key, s) {
      assert PieceFits(line, out[|out| - 1]);
      assert longer[..|longer| - 1] == out[..|out| - 1];
    } else {
      assert longer[..|longer| - 1] == out;
    }
  }

  /** Main result: the pieces of a class, and of all classes, are as long as the usable stretches. */
  lemma {:induction false} PiecesKeepLength(line: Line, classes: Classes, stretches: seq<Stretch>, wanted: Option<string>)
    requires ValidLine(line) && classes != [] && InOrder(stretches, 0, |line.coords|)
    ensures TotalM(PiecesOf(line, classes, stretches), wanted) == StretchesM(line, classes, stretches, wanted)
  {
    if stretches == [] {
    } else {
      hide With, ClassOf, Tiles;
      var n := |stretches| - 1;
      InOrderButLast(stretches, |line.coords|);
      PiecesKeepLength(line, classes, stretches[..n], wanted);
      PiecesTile(line, classes, stretches[..n]);
      WithTotal(line, PiecesOf(line, classes, stretches[..n]), ClassOf(classes, stretches[n].field), stretches[n], wanted);
    }
  }

  // ------------------------------------------------------------------ the legend

  const MIN_LEGEND_M := 25.0
  const MIN_NOTABLE_M := 300.0

  function ClassesM(out: seq<Piece>, classes: Classes): real {
    if classes == [] then 0.0 else TotalM(out, Some(classes[0])) + ClassesM(out, classes[1..])
  }

  predicate Distinct(classes: Classes) {
    forall i, j :: 0 <= i < j < |classes| ==> classes[i] != classes[j]
  }

  lemma {:induction false} ClassesOfLast(out: seq<Piece>, classes: Classes)
    requires out != [] && Distinct(classes)
    ensures var n := |out| - 1;
            ClassesM(out, classes) ==
            ClassesM(out[..n], classes) + (if out[n].key in classes then Length(out[n]) else 0.0)
  {
    if classes == [] {
    } else {
      ClassesOfLast(out, classes[1..]);
      assert out[|out| - 1].key in classes <==> out[|out| - 1].key == classes[0] || out[|out| - 1].key in classes[1..];
    }
  }

  /** The rows of the legend, before those under 25 m are left out, add up to what is coloured. */
  lemma {:induction false} LegendAddsUp(out: seq<Piece>, classes: Classes)
    requires Distinct(classes)
    requires forall i :: 0 <= i < |out| ==> out[i].key in classes
    ensures ClassesM(out, classes) == TotalM(out, None)
  {
    if out == [] {
      NoPiecesNoMeters(classes);
    } else {
      ClassesOfLast(out, classes);
      LegendAddsUp(out[..|out| - 1], classes);
    }
  }

  lemma NoPiecesNoMeters(classes: Classes)
    ensures ClassesM([], classes) == 0.0
  {
  }

  /** The totals per class as the legend's loop sums them; a class with no piece has no entry. */
  method AddUp(out: seq<Piece>) returns (totals: map<string, real>)
    ensures forall key :: key in totals <==> exists i :: 0 <= i < |out| && out[i].key == key
    ensures forall key :: key in totals ==> totals[key] == TotalM(out, Some(key))
  {
    totals := map[];
    hide TotalM;
    for i := 0 to |out|
      invariant forall key :: key in totals <==> exists k :: 0 <= k < i && out[k].key == key
      invariant forall key :: key in totals ==> totals[key] == TotalM(out[..i], Some(key))
    {
      NotYetSeen(out, i);
      TotalOneMore(out, i);
      var p := out[i];
      totals := totals[p.key := (if p.key in totals then totals[p.key] else 0.0) + Length(p)];
    }
    assert out[..|out|] == out;
  }

  lemma TotalOneMore(out: seq<Piece>, i: nat)
    requires i < |out|
    ensures forall key :: TotalM(out[..i + 1], Some(key)) ==
              TotalM(out[..i], Some(key)) + (if key == out[i].key then Length(out[i]) else 0.0)
  {
    assert out[..i + 1][..i] == out[..i];
  }

  lemma {:induction false} NotYetSeen(out: seq<Piece>, i: nat)
    requires i <= |out|
    ensures forall key :: (forall k :: 0 <= k < i ==> out[k].key != key) ==> TotalM(out[..i], Some(key)) == 0.0
  {
    if i > 0 {
      NotYetSeen(out, i - 1);
      assert out[..i][..i - 1] == out[..i - 1];
    }
  }

  datatype Row = Row(key: string, meters: real, share: real)

  /** The rows of the classes that cover 25 m or more, in the order of the classes. */
  function Rows(out: seq<Piece>, classes: Classes, covered: real): seq<Row>
    requires covered > 0.0
  {
    if classes == [] then []
    else
      var meters := TotalM(out, Some(classes[0]));
      (if meters >= MIN_LEGEND_M then [Row(classes[0], meters, meters / covered)] else [])
      + Rows(out, classes[1..], covered)
  }

  /** Into rows sorted with the largest first, behind its equals. */
  function PutRow(rows: seq<Row>, row: Row): seq<Row> {
    if rows == [] || rows[0].meters < row.meters then [row] + rows
    else [rows[0]] + PutRow(rows[1..], row)
  }

  function SortedRows(rows: seq<Row>): seq<Row> {
    if rows == [] then [] else PutRow(SortedRows(rows[..|rows| - 1]), rows[|rows| - 1])
  }

  /** `legend`. */
  function Legend(out: seq<Piece>, classes: Classes): seq<Row> {
    var covered := TotalM(out, None);
    if covered > 0.0 then SortedRows(Rows(out, classes, covered)) else []
  }

  ghost predicate LargestFirst(rows: seq<Row>) {
    forall i, j :: 0 <= i <= j < |rows| ==> rows[i].meters >= rows[j].meters
  }

  lemma {:induction false} PutRowAdds(rows: seq<Row>, row: Row)
    ensures multiset(PutRow(rows, row)) == multiset(rows) + multiset{row}
  {
    if rows == [] || rows[0].meters < row.meters {
    } else {
      PutRowAdds(rows[1..], row);
      assert rows == [rows[0]] + rows[1..];
    }
  }

  lemma {:induction false} PutRowSorts(rows: seq<Row>, row: Row, most: real)
    requires LargestFirst(rows) && row.meters <= most
    requires forall i :: 0 <= i < |rows| ==> rows[i].meters <= most
    ensures LargestFirst(PutRow(rows, row))
    ensures forall i :: 0 <= i < |PutRow(rows, row)| ==> PutRow(rows, row)[i].meters <= most
  {
    if rows == [] || rows[0].meters < row.meters {
    } else {
      PutRowSorts(rows[1..], row, rows[0].meters);
    }
  }

  lemma SortedRowsStep(rows: seq<Row>)
    requires rows != []
    ensures SortedRows(rows) == PutRow(SortedRows(rows[..|rows| - 1]), rows[|rows| - 1])
  {
  }

  lemma {:induction false} SortedRowsSort(rows: seq<Row>)
    ensures LargestFirst(SortedRows(rows))
    ensures multiset(SortedRows(rows)) == multiset(rows)
  {
    if rows == [] {
    } else {
      hide LargestFirst, PutRow, SortedRows;
      SortedRowsStep(rows);
      var n := |rows| - 1;
      var sorted := SortedRows(rows[..n]);
      SortedRowsSort(rows[..n]);
      PutRowAdds(sorted, rows[n]);
      var most := MostMeters(sorted, rows[n]);
      PutRowSorts(sorted, rows[n], most);
      assert rows == rows[..n] + [rows[n]];
    }
  }

  lemma MostMeters(rows: seq<Row>, row: Row) returns (most: real)
    requires LargestFirst(rows)
    ensures row.meters <= most && forall i :: 0 <= i < |rows| ==> rows[i].meters <= most
  {
    most := if rows == [] || rows[0].meters < row.meters then row.meters else rows[0].meters;
  }

  lemma {:induction false} RowsAre(out: seq<Piece>, classes: Classes, covered: real, key: string)
    requires covered > 0.0
    ensures var row := Row(key, TotalM(out, Some(key)), TotalM(out, Some(key)) / covered);
            row in Rows(out, classes, covered) <==> key in classes && TotalM(out, Some(key)) >= MIN_LEGEND_M
    ensures forall r :: r in Rows(out, classes, covered) ==>
              r.key in classes && r == Row(r.key, TotalM(out, Some(r.key)), TotalM(out, Some(r.key)) / covered)
  {
    hide TotalM;
    if classes == [] {
    } else {
      RowsAre(out, classes[1..], covered, key);
      assert key in classes <==> key == classes[0] || key in classes[1..];
      var rest := Rows(out, classes[1..], covered);
      forall r | r in Rows(out, classes, covered)
        ensures r.key in classes && r == Row(r.key, TotalM(out, Some(r.key)), TotalM(out, Some(r.key)) / covered)
      {
        if r in rest {
          assert r.key in classes[1..];
        }
      }
    }
  }

  /** Main result: the legend has every class that covers 25 m or more, and no other, the largest first. */
  lemma LegendIs(out: seq<Piece>, classes: Classes, key: string)
    requires TotalM(out, None) > 0.0
    ensures LargestFirst(Legend(out, classes))
    ensures Row(key, TotalM(out, Some(key)), TotalM(out, Some(key)) / TotalM(out, None)) in Legend(out, classes) <==>
            key in classes && TotalM(out, Some(key)) >= 25.0
    ensures forall r :: r in Legend(out, classes) ==>
              r.key in classes && r.meters == TotalM(out, Some(r.key)) && r.share == r.meters / TotalM(out, None)
  {
    hide TotalM, Rows, SortedRows;
    var covered := TotalM(out, None);
    var rows := Rows(out, classes, covered);
    RowsAre(out, classes, covered, key);
    SortedRowsSort(rows);
    SameMembers(SortedRows(rows), rows);
  }

  lemma SameMembers(a: seq<Row>, b: seq<Row>)
    requires multiset(a) == multiset(b)
    ensures forall r :: r in a <==> r in b
  {
    forall r ensures r in a <==> r in b {
      assert r in a <==> r in multiset(a);
      assert r in b <==> r in multiset(b);
    }
  }

  /** The first of the longest pieces of a class. */
  ghost predicate IsLongest(out: seq<Piece>, notable: string, i: int) {
    && 0 <= i < |out| && out[i].key == notable
    && (forall j :: 0 <= j < |out| && out[j].key == notable ==> Length(out[j]) <= Length(out[i]))
    && (forall j :: 0 <= j < i && out[j].key == notable ==> Length(out[j]) < Length(out[i]))
  }

  /** The longest piece of the notable class: the first of that length, when it is long enough. */
  method Longest(out: seq<Piece>, notable: string) returns (best: Option<Piece>)
    ensures best.None? ==> forall i :: 0 <= i < |out| && out[i].key == notable ==> Length(out[i]) < 300.0
    ensures best.Some? ==> Length(best.value) >= 300.0
    ensures best.Some? ==> exists i :: IsLongest(out, notable, i) && out[i] == best.value
  {
    best := None;
    ghost var at := 0;
    for i := 0 to |out|
      invariant best.None? ==> forall j :: 0 <= j < i ==> out[j].key != notable
      invariant best.Some? ==> 0 <= at < i && out[at] == best.value && out[at].key == notable
      invariant best.Some? ==> forall j :: 0 <= j < i && out[j].key == notable ==> Length(out[j]) <= Length(out[at])
      invariant best.Some? ==> forall j :: 0 <= j < at && out[j].key == notable ==> Length(out[j]) < Length(out[at])
    {
      if out[i].key == notable && (best.None? || Length(out[i]) > Length(best.value)) {
        best := Some(out[i]);
        at := i;
      }
    }
    assert best.Some? ==> IsLongest(out, notable, at);
    if best.Some? && Length(best.value) < MIN_NOTABLE_M {
      best := None;
    }
  }
}
