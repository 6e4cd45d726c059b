/**
 Any GPX file, not only the page's own, as `parse` in frontend/gpx-import.js reads it: which texts are
 refused for their document type, which of a track and a route is read, and under which name.
 */
module GpxReading {
  import opened Common
  import opened XmlText
  import opened XmlTree
  import XmlLexer
  import opened GpxFile

  // ---------------------------------------------------------------- document types

  /** The text in three parts, the middle one declaring a document type, in small letters or capitals. */
  ghost predicate Declares(s: string, before: string, middle: string, after: string) {
    s == before + middle + after && |middle| == 9 && Lower(middle) == "<!doctype"
  }

  /** Main result: a text is refused for its document type exactly when it declares one somewhere. */
  lemma RefusedForDoctypeIff(n: Numbers, source: string)
    ensures ReadGpx(n, source) == Refused(Doctype) <==> exists a, b, c :: Declares(source, a, b, c)
  {
    OnlyDeclaring(n, source);
    hide ReadGpx, WithoutMark, Declares;
    if DeclaresDoctype(WithoutMark(source)) {
      hide DeclaresDoctype;
      var a, b, c := DeclaredInParts(source);
    }
    if a, b, c :| Declares(source, a, b, c) {
      hide DeclaresDoctype;
      PartsDeclare(source, a, b, c);
    }
  }

  lemma DeclaredInParts(source: string) returns (a: string, b: string, c: string)
    requires DeclaresDoctype(WithoutMark(source))
    ensures Declares(source, a, b, c)
  {
    hide Lower;
    var xml := WithoutMark(source);
    var i :| 0 <= i < |xml| && DoctypeAt(xml, i);
    a, b, c := source[..|source| - |xml| + i], xml[i..i + 9], xml[i + 9..];
    assert source == a + b + c;
  }

  lemma PartsDeclare(source: string, a: string, b: string, c: string)
    requires Declares(source, a, b, c)
    ensures DeclaresDoctype(WithoutMark(source))
  {
    LowerAt(b, 0);
    hide Lower;
    assert b[0] == '<' && source[|a|] == b[0];
    var xml := WithoutMark(source);
    var i := |a| - (|source| - |xml|);
    assert xml[i..i + 9] == b;
    assert DoctypeAt(xml, i);
  }

  lemma OnlyDeclaring(n: Numbers, source: string)
    ensures ReadGpx(n, source) == Refused(Doctype) <==> DeclaresDoctype(WithoutMark(source))
  {
    hide XmlLexer.Lex, Build, Kids, DeclaresDoctype, Segments, TrackSegments, Complete, Flat, TextOf, HasLine;
  }

  // ---------------------------------------------------------------- any file

  /** Main result: the text of any GPX tree is read as the tree, with a byte order mark in front or without. */
  lemma AnyFileIsRead(n: Numbers, attrs: seq<(string, string)>, items: seq<Item>)
    requires XmlLexer.PlainAttributes(attrs) && XmlLexer.Printable(items)
    ensures var gpx := Element("gpx", attrs, items);
            var text := XmlLexer.PrintItem(Child(gpx));
            ReadGpx(n, text) == ReadTree(n, gpx) && ReadGpx(n, "\U{FEFF}" + text) == ReadTree(n, gpx)
  {
    var gpx := Element("gpx", attrs, items);
    var file := [Child(gpx)];
    var text := XmlLexer.PrintItem(Child(gpx));
    FileIsPrintable(attrs, items);
    hide *;
    PrintOne(Child(gpx));
    PrintIsTame(file);
    TameMeansNoDoctype(text);
    XmlLexer.ReadPrinted(file);
    KidsOfGpx(gpx);
    StartsWithTag(gpx);
    ReadingSteps(n, text, file, gpx);
    MarkIsIgnored(n, text);
  }

  lemma FileIsPrintable(attrs: seq<(string, string)>, items: seq<Item>)
    requires XmlLexer.PlainAttributes(attrs) && XmlLexer.Printable(items)
    ensures XmlLexer.Printable([Child(Element("gpx", attrs, items))])
  {
  }

  lemma KidsOfGpx(gpx: Element)
    requires gpx.name == "gpx"
    ensures Kids([Child(gpx)], "gpx") == [gpx]
  {
    KidsOfOne(Child(gpx), "gpx");
  }

  lemma StartsWithTag(gpx: Element)
    ensures XmlLexer.PrintItem(Child(gpx)) != "" && XmlLexer.PrintItem(Child(gpx))[0] == '<'
    ensures WithoutMark(XmlLexer.PrintItem(Child(gpx))) == XmlLexer.PrintItem(Child(gpx))
  {
  }

  lemma MarkIsIgnored(n: Numbers, text: string)
    requires text != "" && text[0] == '<'
    ensures ReadGpx(n, "\U{FEFF}" + text) == ReadGpx(n, text)
  {
    hide XmlLexer.Lex, Build, Kids, DeclaresDoctype, ReadTree;
    assert ("\U{FEFF}" + text)[1..] == text;
  }

  // ---------------------------------------------------------------- a file with a track and a route

  /** A header's title, a route with its name and stops, and a track with its name and lines. */
  datatype Ride = Ride(title: string, route: string, stops: seq<Vertex>, track: string, lines: seq<seq<Vertex>>)

  function StopItem(n: Numbers, p: Vertex): Item {
    Child(PointItem(n, p).element.(name := "rtept"))
  }

  function StopItems(n: Numbers, stops: seq<Vertex>): (items: seq<Item>)
    ensures |items| == |stops| && forall i :: 0 <= i < |stops| ==> items[i] == StopItem(n, stops[i])
  {
    seq(|stops|, i requires 0 <= i < |stops| => StopItem(n, stops[i]))
  }

  function HeaderOf(ride: Ride): Item {
    GpxFile.Tag("metadata", [GpxFile.Tag("name", GpxFile.Words(ride.title))])
  }

  function RouteOf(n: Numbers, ride: Ride): Item {
    GpxFile.Tag("rte", [GpxFile.Tag("name", GpxFile.Words(ride.route))] + StopItems(n, ride.stops))
  }

  function TrackOf(n: Numbers, ride: Ride): Item {
    GpxFile.Tag("trk", [GpxFile.Tag("name", GpxFile.Words(ride.track))] + LineItems(n, ride.lines))
  }

  /** The ride as a file in the order of the GPX schema. */
  function FileOf(n: Numbers, ride: Ride): Element {
    Element("gpx", [("version", "1.1")], [HeaderOf(ride), RouteOf(n, ride), TrackOf(n, ride)])
  }

  /** Latitude and longitude within their limits. */
  predicate Placed(p: Vertex) {
    -90.0 <= p.lat <= 90.0 && -180.0 <= p.lon <= 180.0
  }

  predicate AllPlaced(line: seq<Vertex>) {
    forall i :: 0 <= i < |line| ==> Placed(line[i])
  }

  predicate LinesPlaced(lines: seq<seq<Vertex>>) {
    forall i :: 0 <= i < |lines| ==> AllPlaced(lines[i])
  }

  predicate Long(line: seq<Vertex>) {
    |line| >= 2
  }

  /** Points at the same places, with the elevations when all of them have one and without any otherwise. */
  predicate SameWay(drawn: seq<Vertex>, points: seq<Vertex>) {
    && |drawn| == |points|
    && (forall i :: 0 <= i < |points| ==> drawn[i].lon == points[i].lon && drawn[i].lat == points[i].lat)
    && if forall p :: p in points ==> p.ele.Some? then drawn == points
       else forall p :: p in drawn ==> p.ele.None?
  }

  /** A name of its own, or else the header's, without the spaces around it. */
  function NameOr(own: string, title: string): string {
    if Trim(own, JsSpace) != "" then Trim(own, JsSpace) else Trim(title, JsSpace)
  }

  lemma {:induction false} PlacedAreValid(line: seq<Vertex>)
    requires AllPlaced(line)
    ensures Valid(line) == line
  {
    if line != [] {
      PlacedAreValid(line[..|line| - 1]);
    }
  }

  lemma PlacedLinesAreValid(lines: seq<seq<Vertex>>)
    requires LinesPlaced(lines)
    ensures ValidLines(lines) == lines
  {
    hide Valid;
    forall i | 0 <= i < |lines| ensures Valid(lines[i]) == lines[i] {
      PlacedAreValid(lines[i]);
    }
  }

  lemma DrawnSameWay(points: seq<Vertex>)
    ensures SameWay(if Complete(points) then points else Flat(points), points)
  {
    assert Complete(points) <==> forall p :: p in points ==> p.ele.Some? by {
      forall i | (forall p :: p in points ==> p.ele.Some?) && 0 <= i < |points| ensures points[i].ele.Some? {
        assert points[i] in points;
      }
    }
  }

  /** Points that are read the same way whatever the name of their element. */
  lemma {:induction false} SameParts(n: Numbers, es: seq<Element>, others: seq<Element>)
    requires |es| == |others|
    requires forall i :: 0 <= i < |es| ==> es[i].attrs == others[i].attrs && es[i].items == others[i].items
    ensures Collect(n, es) == Collect(n, others)
  {
    if es != [] {
      SameParts(n, es[..|es| - 1], others[..|es| - 1]);
    }
  }

  lemma StopsAreReadBack(n: Numbers, ride: Ride)
    requires Exact(n) && LineFits(n, ride.stops)
    ensures Segments(n, [RouteOf(n, ride).element], "rtept") == [Valid(ride.stops)]
  {
    StopsAreKids(n, ride.stops);
    PointsAreKids(n, ride.stops);
    hide Segments, Kids, Collect, StopItems, PointItem, PointItems, Exact, Valid;
    RouteKids(n, ride);
    var es := Kids(PointItems(n, ride.stops), "trkpt");
    LineIsReadBack(n, ride.stops, es);
    SameParts(n, Kids(StopItems(n, ride.stops), "rtept"), es);
    SegmentOfOne(n, RouteOf(n, ride).element);
  }

  lemma StopsAreKids(n: Numbers, stops: seq<Vertex>)
    ensures var es := Kids(StopItems(n, stops), "rtept");
            && |es| == |stops|
            && forall i :: 0 <= i < |es| ==>
                 es[i].attrs == PointItem(n, stops[i]).element.attrs && es[i].items == PointItem(n, stops[i]).element.items
  {
    AllKids(StopItems(n, stops), "rtept");
    hide Kids, PointItem;
  }

  lemma RouteKids(n: Numbers, ride: Ride)
    ensures RouteOf(n, ride).Child?
    ensures Kids(RouteOf(n, ride).element.items, "rtept") == Kids(StopItems(n, ride.stops), "rtept")
  {
    hide Kids, GpxFile.Words, StopItems;
    KidsConcat([GpxFile.Tag("name", GpxFile.Words(ride.route))], StopItems(n, ride.stops), "rtept");
    KidsOfOne(GpxFile.Tag("name", GpxFile.Words(ride.route)), "rtept");
  }

  lemma SegmentOfOne(n: Numbers, route: Element)
    ensures Segments(n, [route], "rtept") == [Collect(n, Kids(route.items, "rtept"))]
  {
    hide Kids, Collect;
    assert [route][..0] == [];
    assert Segments(n, [route][..0], "rtept") == [];
  }

  lemma LinesAreReadBack(n: Numbers, ride: Ride)
    requires Exact(n) && LinesFit(n, ride.lines)
    ensures Segments(n, TrackSegments([TrackOf(n, ride).element]), "trkpt") == ValidLines(ride.lines)
  {
    hide Kids, Segments, TrackSegments, LineItems, PointItems, Exact, ValidLines;
    TrackKids(n, ride);
    LinesAreKids(n, ride.lines);
    SegmentsAreReadBack(n, ride.lines, Kids(LineItems(n, ride.lines), "trkseg"));
    SegmentsOfOne(TrackOf(n, ride).element);
  }

  lemma TrackKids(n: Numbers, ride: Ride)
    ensures Kids(TrackOf(n, ride).element.items, "trkseg") == Kids(LineItems(n, ride.lines), "trkseg")
  {
    hide Kids, GpxFile.Words, LineItems;
    KidsConcat([GpxFile.Tag("name", GpxFile.Words(ride.track))], LineItems(n, ride.lines), "trkseg");
    KidsOfOne(GpxFile.Tag("name", GpxFile.Words(ride.track)), "trkseg");
  }

  lemma PartsOf(n: Numbers, ride: Ride)
    ensures var items := FileOf(n, ride).items;
            && Kids(items, "trk") == [TrackOf(n, ride).element]
            && Kids(items, "rte") == [RouteOf(n, ride).element]
            && Kids(items, "metadata") == [HeaderOf(ride).element]
  {
    NamesOfParts(n, ride);
    hide Kids, HeaderOf, RouteOf, TrackOf;
    var a, b, c := HeaderOf(ride), RouteOf(n, ride), TrackOf(n, ride);
    KidsOfThree(a, b, c, "trk");
    KidsOfThree(a, b, c, "rte");
    KidsOfThree(a, b, c, "metadata");
  }

  lemma NamesOfParts(n: Numbers, ride: Ride)
    ensures HeaderOf(ride).Child? && HeaderOf(ride).element.name == "metadata"
    ensures RouteOf(n, ride).Child? && RouteOf(n, ride).element.name == "rte"
    ensures TrackOf(n, ride).Child? && TrackOf(n, ride).element.name == "trk"
  {
  }

  lemma KidsOfThree(a: Item, b: Item, c: Item, name: string)
    ensures Kids([a, b, c], name) == Kids([a], name) + Kids([b], name) + Kids([c], name)
    ensures forall item | item in [a, b, c] ::
              Kids([item], name) == if item.Child? && item.element.name == name then [item.element] else []
  {
    hide Kids;
    assert [a, b, c] == [a] + [b] + [c];
    KidsConcat([a] + [b], [c], name);
    KidsConcat([a], [b], name);
    KidsOfOne(a, name);
    KidsOfOne(b, name);
    KidsOfOne(c, name);
  }

  lemma TextsOfParts(n: Numbers, ride: Ride)
    ensures TextOf(HeaderOf(ride).element.items, "name") == Trim(ride.title, JsSpace)
    ensures TextOf(RouteOf(n, ride).element.items, "name") == Trim(ride.route, JsSpace)
    ensures TextOf(TrackOf(n, ride).element.items, "name") == Trim(ride.track, JsSpace)
  {
    hide TextOf, Trim, GpxFile.Words;
    TextOfWords(HeaderOf(ride).element.items, ride.title);
    TextOfWords(RouteOf(n, ride).element.items, ride.route);
    TextOfWords(TrackOf(n, ride).element.items, ride.track);
  }

  lemma RideIsPrintable(n: Numbers, ride: Ride)
    requires Exact(n) && LinesFit(n, ride.lines) && LineFits(n, ride.stops)
    ensures XmlLexer.Printable(FileOf(n, ride).items)
  {
    HeaderIsPrintable(ride);
    RouteIsPrintable(n, ride);
    TrackIsPrintable(n, ride);
    NamesOfParts(n, ride);
    hide XmlLexer.PrintableItem, HeaderOf, RouteOf, TrackOf;
  }

  lemma HeaderIsPrintable(ride: Ride)
    ensures XmlLexer.PrintableItem(HeaderOf(ride))
  {
    hide GpxFile.Words, XmlLexer.PrintableItem;
    PrintableWords(ride.title);
    PrintableTag("name", GpxFile.Words(ride.title));
    PrintableTag("metadata", [GpxFile.Tag("name", GpxFile.Words(ride.title))]);
  }

  lemma RouteIsPrintable(n: Numbers, ride: Ride)
    requires Exact(n) && LineFits(n, ride.stops)
    ensures XmlLexer.PrintableItem(RouteOf(n, ride))
  {
    forall i | 0 <= i < |ride.stops|
      ensures StopItems(n, ride.stops)[i].Child? && XmlLexer.PrintableItem(StopItems(n, ride.stops)[i])
    {
      StopIsPrintable(n, ride.stops[i]);
    }
    hide GpxFile.Words, XmlLexer.PrintableItem, StopItem;
    PrintableWords(ride.route);
    PrintableTag("name", GpxFile.Words(ride.route));
    PrintableTag("rte", [GpxFile.Tag("name", GpxFile.Words(ride.route))] + StopItems(n, ride.stops));
  }

  lemma StopIsPrintable(n: Numbers, p: Vertex)
    requires Exact(n) && Fits(n, p)
    ensures XmlLexer.PrintableItem(StopItem(n, p))
  {
    PointIsPrintable(n, p);
  }

  lemma TrackIsPrintable(n: Numbers, ride: Ride)
    requires Exact(n) && LinesFit(n, ride.lines)
    ensures XmlLexer.PrintableItem(TrackOf(n, ride))
  {
    hide GpxFile.Words, XmlLexer.PrintableItem, PointItem;
    PrintableWords(ride.track);
    PrintableTag("name", GpxFile.Words(ride.track));
    forall i | 0 <= i < |ride.lines|
      ensures XmlLexer.PrintableItem(LineItems(n, ride.lines)[i])
    {
      LineIsPrintable(n, ride.lines[i]);
    }
    PrintableTag("trk", [GpxFile.Tag("name", GpxFile.Words(ride.track))] + LineItems(n, ride.lines));
  }

  lemma LineIsPrintable(n: Numbers, line: seq<Vertex>)
    requires Exact(n) && LineFits(n, line)
    ensures XmlLexer.PrintableItem(GpxFile.Tag("trkseg", PointItems(n, line)))
  {
    hide XmlLexer.PrintableItem, PointItem;
    forall j | 0 <= j < |line|
      ensures XmlLexer.PrintableItem(PointItems(n, line)[j])
    {
      PointIsPrintable(n, line[j]);
    }
    PointsAreChildren(n, line);
    PrintableTag("trkseg", PointItems(n, line));
  }

  /** The text of a ride's file. */
  function TextOfRide(n: Numbers, ride: Ride): string {
    XmlLexer.PrintItem(Child(FileOf(n, ride)))
  }

  /**
   Main result: of a file with a track and a route the track is read when one of its lines has two points,
   otherwise the route when it has two, otherwise nothing; what is read goes under its own name or, without
   one, the header's.
   */
  lemma TrackGoesFirst(n: Numbers, ride: Ride)
    requires Exact(n) && LinesFit(n, ride.lines) && LineFits(n, ride.stops)
    requires LinesPlaced(ride.lines) && AllPlaced(ride.stops)
    ensures var read := ReadGpx(n, TextOfRide(n, ride));
            if exists i :: 0 <= i < |ride.lines| && Long(ride.lines[i]) then
              && read.Read? && read.file.name == NameOr(ride.track, ride.title)
              && SameWay(read.file.points, Flatten(ride.lines))
            else if Long(ride.stops) then
              read.Read? && read.file.name == NameOr(ride.route, ride.title) && SameWay(read.file.points, ride.stops)
            else read == Refused(NoLine)
  {
    RideIsPrintable(n, ride);
    AnyFileIsRead(n, [("version", "1.1")], FileOf(n, ride).items);
    RideIsRead(n, ride);
    hide ReadGpx, ReadTree, XmlLexer.Printable, FileOf, SameWay;
  }

  lemma RideIsRead(n: Numbers, ride: Ride)
    requires Exact(n) && LinesFit(n, ride.lines) && LineFits(n, ride.stops)
    requires LinesPlaced(ride.lines) && AllPlaced(ride.stops)
    ensures var read := ReadTree(n, FileOf(n, ride));
            if exists i :: 0 <= i < |ride.lines| && Long(ride.lines[i]) then
              && read.Read? && read.file.name == NameOr(ride.track, ride.title)
              && SameWay(read.file.points, Flatten(ride.lines))
            else if Long(ride.stops) then
              read.Read? && read.file.name == NameOr(ride.route, ride.title) && SameWay(read.file.points, ride.stops)
            else read == Refused(NoLine)
  {
    PartsOf(n, ride);
    TextsOfParts(n, ride);
    LinesAreReadBack(n, ride);
    StopsAreReadBack(n, ride);
    PlacedLinesAreValid(ride.lines);
    PlacedAreValid(ride.stops);
    DrawnSameWay(Flatten(ride.lines));
    DrawnSameWay(ride.stops);
    hide *;
    var track, route, header := TrackOf(n, ride).element, RouteOf(n, ride).element, HeaderOf(ride).element;
    ReadingTree(n, FileOf(n, ride), track, route, header, ride.lines, ride.stops);
    NameOrIs(ride.track, ride.title);
    NameOrIs(ride.route, ride.title);
    LongIs(ride.lines, ride.stops);
  }

  lemma NameOrIs(own: string, title: string)
    ensures NameOr(own, title) == if Trim(own, JsSpace) != "" then Trim(own, JsSpace) else Trim(title, JsSpace)
  {
  }

  lemma LongIs(lines: seq<seq<Vertex>>, stops: seq<Vertex>)
    ensures HasLine(lines) <==> exists i :: 0 <= i < |lines| && Long(lines[i])
    ensures Long(stops) <==> |stops| >= 2
  {
    if i :| 0 <= i < |lines| && |lines[i]| >= 2 {
      assert Long(lines[i]);
    }
  }

  lemma ReadingTree(n: Numbers, gpx: Element, track: Element, route: Element, header: Element,
                    lines: seq<seq<Vertex>>, stops: seq<Vertex>)
    requires Kids(gpx.items, "trk") == [track] && Kids(gpx.items, "rte") == [route]
    requires Kids(gpx.items, "metadata") == [header]
    requires Segments(n, TrackSegments([track]), "trkpt") == lines && Segments(n, [route], "rtept") == [stops]
    ensures var title := TextOf(header.items, "name");
            var way := Flatten(lines);
            ReadTree(n, gpx)
            == if HasLine(lines) then
                 var own := TextOf(track.items, "name");
                 Read(File(if own != "" then own else title, if Complete(way) then way else Flat(way)))
               else if |stops| >= 2 then
                 var own := TextOf(route.items, "name");
                 Read(File(if own != "" then own else title, if Complete(stops) then stops else Flat(stops)))
               else Refused(NoLine)
  {
    hide Kids, Segments, TrackSegments, TextOf, Complete, Flat, Flatten;
    FlattenOne(stops);
    if HasLine(lines) {
      var i :| 0 <= i < |lines| && |lines[i]| >= 2;
      LongLineIsLong(lines, i);
    }
  }

  lemma FlattenOne(line: seq<Vertex>)
    ensures Flatten([line]) == line
  {
    assert [line][1..] == [] && Flatten<Vertex>([]) == [];
  }

  // ---------------------------------------------------------------- the page's own files

  /**
   Main result: a written route comes back as the way it is, under its name or as "route", unless no line has
   two points.
   */
  lemma RouteComesBack(n: Numbers, route: Route)
    requires Exact(n) && Writable(n, route) && LinesPlaced(route.lines)
    ensures var read := ReadGpx(n, WriteGpx(n, route));
            if exists i :: 0 <= i < |route.lines| && Long(route.lines[i]) then
              && read.Read? && SameWay(read.file.points, Flatten(route.lines))
              && read.file.name == if route.name == "" then "route" else Trim(route.name, JsSpace)
            else read == Refused(NoLine)
  {
    WrittenIsReadBack(n, route);
    PlacedLinesAreValid(route.lines);
    DrawnSameWay(Flatten(route.lines));
    LongIs(route.lines, []);
    TitleIs(route);
    hide *;
    ExpectedOf(route, route.lines);
  }

  lemma TitleIs(route: Route)
    ensures Trim(Title(route), JsSpace) == if route.name == "" then "route" else Trim(route.name, JsSpace)
  {
  }

  lemma ExpectedOf(route: Route, lines: seq<seq<Vertex>>)
    requires ValidLines(route.lines) == lines
    ensures Expected(route)
         == if HasLine(lines) then
              var way := Flatten(lines);
              Read(File(Trim(Title(route), JsSpace), if Complete(way) then way else Flat(way)))
            else Refused(NoLine)
  {
    hide ValidLines, HasLine, Complete, Flat, Flatten, Title, Trim;
  }
}
