/**
 A route written as GPX (`gpx` in frontend/export.js) and read back (`parse` in
 frontend/gpx-import.js). Numbers are written and read by a pair of functions with the laws below.
 */
module GpxFile {
  import opened Common
  import opened XmlText
  import opened XmlTree
  import opened XmlLexer

  /**
   `show` is how a template writes a number, `read` how a decimal is read (None is no number), and
   `fits` says which reals are numbers of the page at all.
   */
  datatype Numbers = Numbers(show: real -> string, read: string -> Option<real>, fits: real -> bool)

  predicate NumberChar(c: char) {
    '0' <= c <= '9' || c == '-' || c == '+' || c == '.' || c == 'e'
  }

  /** Every number of the page is read back as it was written. */
  ghost predicate Exact(n: Numbers) {
    n.read("") == None && forall x :: n.fits(x) ==> n.read(n.show(x)) == Some(x) && PlainNumber(n.show(x))
  }

  predicate PlainNumber(s: string) {
    s != "" && forall i :: 0 <= i < |s| ==> NumberChar(s[i])
  }

  datatype Vertex = Vertex(lon: real, lat: real, ele: Option<real>)

  /** A candidate route: its lines, its names, and what a forecast adds to the header and before the track. */
  datatype Route = Route(lines: seq<seq<Vertex>>, name: string, provider: string, profile: string, notes: seq<Item>, marks: seq<Item>)

  predicate Fits(n: Numbers, p: Vertex) {
    n.fits(p.lon) && n.fits(p.lat) && (p.ele.Some? ==> n.fits(p.ele.value))
  }

  predicate LineFits(n: Numbers, line: seq<Vertex>) {
    forall i :: 0 <= i < |line| ==> Fits(n, line[i])
  }

  predicate LinesFit(n: Numbers, lines: seq<seq<Vertex>>) {
    forall i :: 0 <= i < |lines| ==> LineFits(n, lines[i])
  }

  // ---------------------------------------------------------------- a printer of numbers

  function ShowNat(k: nat): string {
    if k < 10 then [(k as char) + '0'] else ShowNat(k / 10) + [((k % 10) as char) + '0']
  }

  function ReadNat(s: string): Option<nat> {
    if s == "" then None
    else
      var last := s[|s| - 1];
      if !('0' <= last <= '9') then None
      else if |s| == 1 then Some((last - '0') as nat)
      else
        var before := ReadNat(s[..|s| - 1]);
        if before.Some? then Some(10 * before.value + (last - '0') as nat) else None
  }

  lemma {:induction false} NatIsReadBack(k: nat)
    ensures ReadNat(ShowNat(k)) == Some(k) && ShowNat(k) != ""
    ensures forall i :: 0 <= i < |ShowNat(k)| ==> '0' <= ShowNat(k)[i] <= '9'
  {
    if k >= 10 {
      NatIsReadBack(k / 10);
      assert ShowNat(k)[..|ShowNat(k)| - 1] == ShowNat(k / 10);
    }
  }

  const TICKS := 10000000.0

  /** Seven decimals, as OSM keeps them. */
  predicate IsDecimal(x: real) {
    (x * TICKS).Floor as real == x * TICKS
  }

  function ShowDecimal(x: real): string {
    var k := (x * TICKS).Floor;
    (if k < 0 then "-" + ShowNat(-k) else ShowNat(k)) + "e-7"
  }

  function ReadDecimal(s: string): Option<real> {
    if |s| < 3 || s[|s| - 3..] != "e-7" then None
    else
      var digits := s[..|s| - 3];
      var minus := digits != "" && digits[0] == '-';
      var k := ReadNat(if minus then digits[1..] else digits);
      if k.None? then None
      else
        var value: int := if minus then 0 - k.value else k.value;
        Some(value as real / TICKS)
  }

  lemma DecimalText(k: int, digits: string)
    requires digits == if k < 0 then "-" + ShowNat(-k) else ShowNat(k)
    ensures ReadDecimal(digits + "e-7") == Some(k as real / TICKS)
    ensures PlainNumber(digits + "e-7")
  {
    NatIsReadBack(if k < 0 then -k else k);
    hide ShowNat, ReadNat;
    var s := digits + "e-7";
    assert s[|s| - 3..] == "e-7" && s[..|s| - 3] == digits;
    assert k < 0 ==> digits[1..] == ShowNat(-k);
  }

  lemma DecimalIsReadBack(x: real)
    requires IsDecimal(x)
    ensures ReadDecimal(ShowDecimal(x)) == Some(x) && PlainNumber(ShowDecimal(x))
  {
    hide ShowNat, ReadDecimal, PlainNumber;
    var k := (x * TICKS).Floor;
    DecimalText(k, if k < 0 then "-" + ShowNat(-k) else ShowNat(k));
    assert k as real / TICKS == x;
  }

  /** The laws asked of a printer can be met: with seven decimals, by whole numbers and an exponent. */
  lemma DecimalsAreExact()
    ensures Exact(Numbers(ShowDecimal, ReadDecimal, IsDecimal))
    ensures IsDecimal(9.9876543) && IsDecimal(-0.25) && IsDecimal(180.0)
  {
    forall x | IsDecimal(x) ensures ReadDecimal(ShowDecimal(x)) == Some(x) && PlainNumber(ShowDecimal(x)) {
      DecimalIsReadBack(x);
    }
  }

  // ---------------------------------------------------------------- writing

  // Long texts are put together from short ones, which the proofs about them take one at a time.
  const DECLARATION := "xml " + ("version=" + ("\"1.0\" " + ("encoding=" + "\"UTF-8\"")))
  const HEADER := "<?" + DECLARATION + "?>"
  const NAMESPACE := "http://www." + ("topografix" + ".com/GPX/1/1")
  const CREATOR := "bike-" + ("routing-" + "agent")

  function Title(route: Route): string {
    if route.name == "" then "route" else route.name
  }

  function Attribute(name: string, value: string): string {
    " " + name + "=\"" + value + "\""
  }

  function Enclose(name: string, body: string): string {
    "<" + name + ">" + body + "</" + name + ">"
  }

  function WritePoint(n: Numbers, p: Vertex): string {
    "<trkpt" + (Attribute("lon", n.show(p.lon)) + Attribute("lat", n.show(p.lat))) + ">"
    + (if p.ele.Some? then Enclose("ele", n.show(p.ele.value)) else "") + "</trkpt>"
  }

  function WritePoints(n: Numbers, line: seq<Vertex>): string {
    if line == [] then "" else WritePoints(n, line[..|line| - 1]) + WritePoint(n, line[|line| - 1])
  }

  function WriteLines(n: Numbers, lines: seq<seq<Vertex>>): string {
    if lines == [] then ""
    else WriteLines(n, lines[..|lines| - 1]) + Enclose("trkseg", WritePoints(n, lines[|lines| - 1]))
  }

  function WriteMetadata(route: Route): string {
    Enclose("metadata",
            Enclose("name", XmlEscape(Title(route))) + PrintItems(route.notes)
            + Enclose("extensions",
                      Enclose("provider", XmlEscape(route.provider)) + Enclose("provider_profile", XmlEscape(route.profile))))
  }

  function WriteGpx(n: Numbers, route: Route): string {
    HEADER + "\n"
    + ("<gpx" + (Attribute("version", "1.1") + (Attribute("creator", CREATOR) + Attribute("xmlns", NAMESPACE))) + ">"
       + (WriteMetadata(route) + PrintItems(route.marks)
          + Enclose("trk", Enclose("name", XmlEscape(Title(route))) + WriteLines(n, route.lines)))
       + "</gpx>")
  }

  // ---------------------------------------------------------------- the tree that is written

  function Words(text: string): seq<Item> {
    if text == "" then [] else [Text(text)]
  }

  function Tag(name: string, items: seq<Item>): Item {
    Child(Element(name, [], items))
  }

  function PointItem(n: Numbers, p: Vertex): Item {
    Child(Element("trkpt", [("lon", n.show(p.lon)), ("lat", n.show(p.lat))],
                  if p.ele.Some? then [Tag("ele", [Text(n.show(p.ele.value))])] else []))
  }

  function PointItems(n: Numbers, line: seq<Vertex>): (items: seq<Item>)
    ensures |items| == |line| && forall i :: 0 <= i < |line| ==> items[i] == PointItem(n, line[i])
  {
    seq(|line|, i requires 0 <= i < |line| => PointItem(n, line[i]))
  }

  function LineItems(n: Numbers, lines: seq<seq<Vertex>>): (items: seq<Item>)
    ensures |items| == |lines| && forall i :: 0 <= i < |lines| ==> items[i] == Tag("trkseg", PointItems(n, lines[i]))
  {
    seq(|lines|, i requires 0 <= i < |lines| => Tag("trkseg", PointItems(n, lines[i])))
  }

  function MetadataItem(route: Route): Item {
    Tag("metadata", [Tag("name", Words(Title(route)))] + route.notes
                    + [Tag("extensions", [Tag("provider", Words(route.provider)), Tag("provider_profile", Words(route.profile))])])
  }

  function TrackItem(n: Numbers, route: Route): Item {
    Tag("trk", [Tag("name", Words(Title(route)))] + LineItems(n, route.lines))
  }

  function GpxItem(n: Numbers, route: Route): Item {
    Child(Element("gpx", [("version", "1.1"), ("creator", CREATOR), ("xmlns", NAMESPACE)],
                  [MetadataItem(route)] + route.marks + [TrackItem(n, route)]))
  }

  // ---------------------------------------------------------------- what is written is that tree

  lemma PrintOne(item: Item)
    ensures PrintItems([item]) == PrintItem(item)
  {
    assert [item][..0] == [];
  }

  lemma PrintAnother(items: seq<Item>, last: Item)
    ensures PrintItems(items + [last]) == PrintItems(items) + PrintItem(last)
  {
    assert (items + [last])[..|items|] == items;
  }

  lemma {:induction false} PrintConcat(a: seq<Item>, b: seq<Item>)
    ensures PrintItems(a + b) == PrintItems(a) + PrintItems(b)
    decreases |b|
  {
    hide PrintItem, PrintItems;
    if b == [] {
      PrintNothing();
      assert a + b == a;
    } else {
      var before, last := b[..|b| - 1], b[|b| - 1];
      PrintConcat(a, before);
      PrintAnother(a + before, last);
      PrintAnother(before, last);
      assert a + before + [last] == a + b && before + [last] == b;
      ConcatAssociates(PrintItems(a), PrintItems(before), PrintItem(last));
    }
  }

  lemma PrintWords(text: string)
    ensures PrintItems(Words(text)) == XmlEscape(text)
  {
    hide XmlEscape;
    if text == "" {
      EscapeNothing();
    } else {
      PrintOne(Text(text));
    }
  }

  lemma PrintTag(name: string, items: seq<Item>)
    ensures PrintItem(Tag(name, items)) == Enclose(name, PrintItems(items))
  {
    assert PrintAttributes([]) == "";
  }

  lemma PlainNumberIsPlain(s: string)
    requires PlainNumber(s)
    ensures XmlEscape(s) == s && Trim(s, JsSpace) == s
  {
    hide XmlEscape;
    EscapePlain(s);
    assert TrimStart(s, JsSpace) == s;
  }

  lemma PrintAttribute(name: string, value: string, more: seq<(string, string)>)
    requires XmlEscape(value) == value
    ensures PrintAttributes([(name, value)] + more) == Attribute(name, value) + PrintAttributes(more)
    ensures PrintAttributes([(name, value)]) == Attribute(name, value)
  {
    hide XmlEscape;
    assert ([(name, value)] + more)[1..] == more && [(name, value)][1..] == [];
    assert PrintAttributes([(name, value)]) == Attribute(name, value) + "";
  }

  lemma PointAttributes(x: string, y: string)
    requires XmlEscape(x) == x && XmlEscape(y) == y
    ensures PrintAttributes([("lon", x), ("lat", y)]) == Attribute("lon", x) + Attribute("lat", y)
  {
    hide XmlEscape, Attribute, PrintAttributes;
    PrintAttribute("lat", y, []);
    PrintAttribute("lon", x, [("lat", y)]);
    assert [("lon", x)] + [("lat", y)] == [("lon", x), ("lat", y)];
  }

  lemma PrintElement(name: string, attrs: seq<(string, string)>, items: seq<Item>)
    ensures PrintItem(Child(Element(name, attrs, items)))
         == "<" + name + PrintAttributes(attrs) + ">" + PrintItems(items) + "</" + name + ">"
  {
  }

  lemma PrintElevation(text: string)
    requires XmlEscape(text) == text
    ensures PrintItems([Tag("ele", [Text(text)])]) == Enclose("ele", text)
  {
    hide XmlEscape, PrintItems, Tag, Enclose;
    PrintOne(Tag("ele", [Text(text)]));
    PrintOne(Text(text));
    PrintTag("ele", [Text(text)]);
  }

  lemma OpenClose(name: string, attrs: string, body: string)
    requires name == "trkpt" || name == "gpx"
    ensures "<" + name + attrs + ">" + body + "</" + name + ">" == ("<" + name) + attrs + ">" + body + ("</" + name + ">")
    ensures "<" + "trkpt" == "<trkpt" && "</" + "trkpt" + ">" == "</trkpt>"
    ensures "<" + "gpx" == "<gpx" && "</" + "gpx" + ">" == "</gpx>"
  {
  }

  lemma ExactAt(n: Numbers, x: real)
    requires Exact(n) && n.fits(x)
    ensures n.read(n.show(x)) == Some(x) && PlainNumber(n.show(x))
  {
  }

  lemma PointIsPrinted(n: Numbers, p: Vertex)
    requires Exact(n) && Fits(n, p)
    ensures WritePoint(n, p) == PrintItem(PointItem(n, p))
  {
    hide XmlEscape, PrintAttributes, Trim, PlainNumber, PrintItem, PrintItems, Tag, Enclose, Attribute;
    var x, y := n.show(p.lon), n.show(p.lat);
    PlainNumberIsPlain(x);
    PlainNumberIsPlain(y);
    PointAttributes(x, y);
    var items := if p.ele.Some? then [Tag("ele", [Text(n.show(p.ele.value))])] else [];
    if p.ele.Some? {
      ExactAt(n, p.ele.value);
      PlainNumberIsPlain(n.show(p.ele.value));
      PrintElevation(n.show(p.ele.value));
    } else {
      PrintNothing();
    }
    PrintElement("trkpt", [("lon", x), ("lat", y)], items);
    OpenClose("trkpt", Attribute("lon", x) + Attribute("lat", y), PrintItems(items));
  }

  lemma PrintNothing()
    ensures PrintItems([]) == ""
  {
  }

  lemma {:induction false} PointsArePrinted(n: Numbers, line: seq<Vertex>)
    requires Exact(n) && LineFits(n, line)
    ensures WritePoints(n, line) == PrintItems(PointItems(n, line))
  {
    hide WritePoint, PrintItem, PointItem;
    if line != [] {
      var before, last := line[..|line| - 1], line[|line| - 1];
      PointsArePrinted(n, before);
      PointIsPrinted(n, last);
      assert PointItems(n, line)[..|line| - 1] == PointItems(n, before);
    }
  }

  lemma {:induction false} LinesArePrinted(n: Numbers, lines: seq<seq<Vertex>>)
    requires Exact(n) && LinesFit(n, lines)
    ensures WriteLines(n, lines) == PrintItems(LineItems(n, lines))
  {
    hide WritePoints, PrintItem, PointItems, Tag;
    if lines != [] {
      var before, last := lines[..|lines| - 1], lines[|lines| - 1];
      LinesArePrinted(n, before);
      PointsArePrinted(n, last);
      PrintTag("trkseg", PointItems(n, last));
      assert LineItems(n, lines)[..|lines| - 1] == LineItems(n, before);
    }
  }

  lemma PrintTwo(a: Item, b: Item)
    ensures PrintItems([a, b]) == PrintItem(a) + PrintItem(b)
  {
    hide PrintItem, PrintItems;
    PrintOne(a);
    PrintAnother([a], b);
    assert [a] + [b] == [a, b];
  }

  lemma PrintAround(first: Item, middle: seq<Item>, last: Item)
    ensures PrintItems([first] + middle + [last]) == PrintItem(first) + PrintItems(middle) + PrintItem(last)
  {
    hide PrintItem, PrintItems;
    PrintOne(first);
    PrintConcat([first], middle);
    PrintAnother([first] + middle, last);
  }

  lemma MetadataIsPrinted(route: Route)
    ensures WriteMetadata(route) == PrintItem(MetadataItem(route))
  {
    hide XmlEscape, PrintItem, PrintItems, Enclose, Tag, Words;
    PrintWords(Title(route));
    PrintWords(route.provider);
    PrintWords(route.profile);
    PrintTag("name", Words(Title(route)));
    PrintTag("provider", Words(route.provider));
    PrintTag("provider_profile", Words(route.profile));
    var inner := [Tag("provider", Words(route.provider)), Tag("provider_profile", Words(route.profile))];
    PrintTwo(inner[0], inner[1]);
    PrintTag("extensions", inner);
    PrintAround(Tag("name", Words(Title(route))), route.notes, Tag("extensions", inner));
    PrintTag("metadata", [Tag("name", Words(Title(route)))] + route.notes + [Tag("extensions", inner)]);
  }

  lemma TrackIsPrinted(n: Numbers, route: Route)
    requires Exact(n) && LinesFit(n, route.lines)
    ensures Enclose("trk", Enclose("name", XmlEscape(Title(route))) + WriteLines(n, route.lines)) == PrintItem(TrackItem(n, route))
  {
    hide XmlEscape, PrintItem, PrintItems, Enclose, Tag, Words, LineItems, WriteLines;
    PrintWords(Title(route));
    PrintTag("name", Words(Title(route)));
    LinesArePrinted(n, route.lines);
    PrintOne(Tag("name", Words(Title(route))));
    PrintConcat([Tag("name", Words(Title(route)))], LineItems(n, route.lines));
    PrintTag("trk", [Tag("name", Words(Title(route)))] + LineItems(n, route.lines));
  }

  const GPX_ATTRIBUTES: seq<(string, string)> := [("version", "1.1"), ("creator", CREATOR), ("xmlns", NAMESPACE)]

  lemma GpxAttributes()
    ensures PrintAttributes(GPX_ATTRIBUTES)
         == Attribute("version", "1.1") + (Attribute("creator", CREATOR) + Attribute("xmlns", NAMESPACE))
  {
    hide XmlEscape, Attribute, PrintAttributes;
    ConstantsArePlain();
    var last := [("xmlns", NAMESPACE)];
    var two := [("creator", CREATOR)] + last;
    PrintAttribute("xmlns", NAMESPACE, []);
    PrintAttribute("creator", CREATOR, last);
    PrintAttribute("version", "1.1", two);
    assert GPX_ATTRIBUTES == [("version", "1.1")] + two;
  }

  lemma EscapeParts(a: string, b: string)
    requires XmlEscape(a) == a && XmlEscape(b) == b
    ensures XmlEscape(a + b) == a + b
  {
    EscapeConcat(a, b);
  }

  lemma ConstantsArePlain()
    ensures XmlEscape("1.1") == "1.1" && XmlEscape(CREATOR) == CREATOR && XmlEscape(NAMESPACE) == NAMESPACE
  {
    hide XmlEscape;
    EscapePlain("1.1");
    CreatorIsPlain();
    NamespaceIsPlain();
  }

  lemma CreatorIsPlain()
    ensures XmlEscape(CREATOR) == CREATOR
  {
    hide XmlEscape;
    EscapePlain("bike-");
    EscapePlain("routing-");
    EscapePlain("agent");
    EscapeParts("routing-", "agent");
    EscapeParts("bike-", "routing-" + "agent");
  }

  lemma SiteIsPlain()
    ensures XmlEscape("http://www.") == "http://www." && XmlEscape("topografix") == "topografix"
  {
    hide XmlEscape;
    EscapePlain("http://www.");
    EscapePlain("topografix");
  }

  lemma PathIsPlain()
    ensures XmlEscape(".com/GPX/1/1") == ".com/GPX/1/1"
  {
    hide XmlEscape;
    EscapePlain(".com/GPX/1/1");
  }

  lemma NamespaceIsPlain()
    ensures XmlEscape(NAMESPACE) == NAMESPACE
  {
    hide XmlEscape;
    SiteIsPlain();
    PathIsPlain();
    EscapeParts("topografix", ".com/GPX/1/1");
    EscapeParts("http://www.", "topografix" + ".com/GPX/1/1");
  }

  /** The text the exporter puts together is the print of one tree behind the header. */
  lemma GpxIsPrinted(n: Numbers, route: Route)
    requires Exact(n) && LinesFit(n, route.lines)
    ensures WriteGpx(n, route) == HEADER + PrintItems([Text("\n"), GpxItem(n, route)])
  {
    hide XmlEscape, PrintItem, PrintItems, Enclose, Tag, WriteLines, WriteMetadata, MetadataItem, TrackItem, PrintAttributes, Attribute;
    MetadataIsPrinted(route);
    TrackIsPrinted(n, route);
    PrintAround(MetadataItem(route), route.marks, TrackItem(n, route));
    GpxAttributes();
    var body := PrintItems([MetadataItem(route)] + route.marks + [TrackItem(n, route)]);
    PrintElement("gpx", GPX_ATTRIBUTES, [MetadataItem(route)] + route.marks + [TrackItem(n, route)]);
    OpenClose("gpx", PrintAttributes(GPX_ATTRIBUTES), body);
    PrintTwo(Text("\n"), GpxItem(n, route));
    NewLine();
    ConcatAssociates(HEADER, "\n", PrintItem(GpxItem(n, route)));
  }

  lemma NewLine()
    ensures PrintItem(Text("\n")) == "\n"
  {
    EscapePlain("\n");
  }

  // ---------------------------------------------------------------- reading

  function Kids(items: seq<Item>, name: string): seq<Element> {
    if items == [] then []
    else
      var last := items[|items| - 1];
      Kids(items[..|items| - 1], name) + (if last.Child? && last.element.name == name then [last.element] else [])
  }

  function AllText(items: seq<Item>): string {
    if items == [] then ""
    else
      var last := items[|items| - 1];
      AllText(items[..|items| - 1]) + (if last.Text? then last.text else "")
  }

  /** The trimmed text of the first child of a name, nothing when there is none. */
  function TextOf(items: seq<Item>, name: string): string {
    var found := Kids(items, name);
    if found == [] then "" else Trim(AllText(found[0].items), JsSpace)
  }

  /** A later attribute of the same name overrides an earlier one. */
  function Lookup(attrs: seq<(string, string)>, name: string): Option<string> {
    if attrs == [] then None
    else if attrs[|attrs| - 1].0 == name then Some(attrs[|attrs| - 1].1)
    else Lookup(attrs[..|attrs| - 1], name)
  }

  function Decimal(n: Numbers, text: Option<string>): Option<real> {
    match text case None => None case Some(s) => n.read(s)
  }

  predicate OnEarth(lon: real, lat: real) {
    -90.0 <= lat <= 90.0 && -180.0 <= lon <= 180.0
  }

  function ReadPoint(n: Numbers, e: Element): Option<Vertex> {
    var lat, lon := Decimal(n, Lookup(e.attrs, "lat")), Decimal(n, Lookup(e.attrs, "lon"));
    if lat.None? || lon.None? || !OnEarth(lon.value, lat.value) then None
    else Some(Vertex(lon.value, lat.value, n.read(TextOf(e.items, "ele"))))
  }

  function Collect(n: Numbers, es: seq<Element>): seq<Vertex> {
    if es == [] then []
    else
      var last := ReadPoint(n, es[|es| - 1]);
      Collect(n, es[..|es| - 1]) + (if last.Some? then [last.value] else [])
  }

  /** The points of every element of a list, by the name its points go by. */
  function Segments(n: Numbers, es: seq<Element>, name: string): seq<seq<Vertex>> {
    if es == [] then []
    else Segments(n, es[..|es| - 1], name) + [Collect(n, Kids(es[|es| - 1].items, name))]
  }

  function TrackSegments(tracks: seq<Element>): seq<Element> {
    if tracks == [] then []
    else TrackSegments(tracks[..|tracks| - 1]) + Kids(tracks[|tracks| - 1].items, "trkseg")
  }

  predicate HasLine(segments: seq<seq<Vertex>>) {
    exists i :: 0 <= i < |segments| && |segments[i]| >= 2
  }

  predicate Complete(points: seq<Vertex>) {
    forall i :: 0 <= i < |points| ==> points[i].ele.Some?
  }

  function Flat(points: seq<Vertex>): seq<Vertex> {
    seq(|points|, i requires 0 <= i < |points| => points[i].(ele := None))
  }

  datatype File = File(name: string, points: seq<Vertex>)

  datatype Refusal = Doctype | NotXml(why: XmlTree.Failure) | NotGpx | NoLine

  datatype Reading = Read(file: File) | Refused(why: Refusal)

  predicate DoctypeAt(xml: string, i: int) {
    0 <= i && i + 9 <= |xml| && Lower(xml[i..i + 9]) == "<!doctype"
  }

  predicate DeclaresDoctype(xml: string) {
    exists i :: 0 <= i < |xml| && DoctypeAt(xml, i)
  }

  function WithoutMark(source: string): string {
    if source != "" && source[0] == '\U{FEFF}' then source[1..] else source
  }

  function ReadTree(n: Numbers, gpx: Element): Reading {
    var tracks, routes := Kids(gpx.items, "trk"), Kids(gpx.items, "rte");
    var segments := Segments(n, TrackSegments(tracks), "trkpt");
    var isTrack := HasLine(segments);
    var points := Flatten(if isTrack then segments else Segments(n, routes, "rtept"));
    if |points| < 2 then Refused(NoLine)
    else
      var named := if isTrack then tracks else routes;
      var own := if named == [] then "" else TextOf(named[0].items, "name");
      var meta := Kids(gpx.items, "metadata");
      var name := if own != "" then own else if meta == [] then "" else TextOf(meta[0].items, "name");
      Read(File(name, if Complete(points) then points else Flat(points)))
  }

  function ReadGpx(n: Numbers, source: string): Reading {
    var xml := WithoutMark(source);
    if DeclaresDoctype(xml) then Refused(Doctype)
    else match Build(Lex(xml))
      case Failed(why) => Refused(NotXml(why))
      case Built(items) =>
        var gpx := Kids(items, "gpx");
        if gpx == [] then Refused(NotGpx) else ReadTree(n, gpx[0])
  }

  // ---------------------------------------------------------------- the text read back is the tree

  /** No `<` is followed by `!`, or by nothing. */
  ghost predicate Tame(s: string) {
    forall i :: 0 <= i < |s| && s[i] == '<' ==> i + 1 < |s| && s[i + 1] != '!'
  }

  lemma TameConcat(a: string, b: string)
    requires Tame(a) && Tame(b)
    ensures Tame(a + b)
  {
  }

  lemma TameWithoutTag(s: string)
    requires '<' !in s
    ensures Tame(s)
  {
  }

  lemma TameTag(start: string, rest: string)
    requires (start == "<" || start == "</") && '<' !in rest && rest != "" && rest[0] != '!'
    ensures Tame(start + rest)
  {
  }

  lemma TameMeansNoDoctype(s: string)
    requires Tame(s)
    ensures !DeclaresDoctype(s)
  {
    forall i | 0 <= i && i + 9 <= |s|
      ensures !DoctypeAt(s, i)
    {
      var part := s[i..i + 9];
      LowerAt(part, 0);
      LowerAt(part, 1);
      assert part[0] == s[i] && part[1] == s[i + 1];
    }
  }

  lemma {:induction false} AttributesHaveNoTag(attrs: seq<(string, string)>)
    requires PlainAttributes(attrs)
    ensures '<' !in PrintAttributes(attrs)
  {
    hide XmlEscape;
    if attrs != [] {
      EscapedIsSafe(attrs[0].1);
      AttributesHaveNoTag(attrs[1..]);
    }
  }

  lemma {:induction false} PrintIsTame(items: seq<Item>)
    requires Printable(items)
    ensures Tame(PrintItems(items))
    decreases items, 0
  {
    hide Tame, PrintItem;
    if items == [] {
      TameWithoutTag("");
    } else {
      var before, last := items[..|items| - 1], items[|items| - 1];
      assert forall i :: 0 <= i < |before| ==> before[i] == items[i];
      PrintIsTame(before);
      PrintItemIsTame(last);
      TameConcat(PrintItems(before), PrintItem(last));
    }
  }

  lemma {:induction false} PrintItemIsTame(item: Item)
    requires PrintableItem(item)
    ensures Tame(PrintItem(item))
    decreases item, 1
  {
    hide Tame, XmlEscape;
    match item
    case Text(text) =>
      EscapedIsSafe(text);
      TameWithoutTag(XmlEscape(text));
    case Child(Element(name, attrs, items)) =>
      var open, body, close := name + PrintAttributes(attrs) + ">", PrintItems(items), name + ">";
      AttributesHaveNoTag(attrs);
      TameTag("<", open);
      PrintIsTame(items);
      TameTag("</", close);
      TameConcat("<" + open, body);
      TameConcat("<" + open + body, "</" + close);
      ElementText(name, attrs, items);
  }

  lemma ElementText(name: string, attrs: seq<(string, string)>, items: seq<Item>)
    ensures PrintItem(Child(Element(name, attrs, items)))
         == "<" + (name + PrintAttributes(attrs) + ">") + PrintItems(items) + ("</" + (name + ">"))
  {
    hide PrintItem, PrintItems, PrintAttributes;
    PrintElement(name, attrs, items);
  }

  lemma {:induction false} FindAfter(a: string, rest: string)
    requires '?' !in a
    ensures Find(a + "?>" + rest, "?>") == Some(|a|)
  {
    var s := a + "?>" + rest;
    if a == "" {
      assert s[..2] == "?>";
    } else {
      assert s[0] == a[0] && !("?>" <= s);
      assert s[1..] == a[1..] + "?>" + rest;
      FindAfter(a[1..], rest);
    }
  }

  /** What a forecast may add: whole elements, but no other track or route. */
  ghost predicate Extra(items: seq<Item>) {
    && Printable(items)
    && forall i :: 0 <= i < |items| ==> items[i].Child? && items[i].element.name !in ["trk", "rte"]
  }

  ghost predicate Writable(n: Numbers, route: Route) {
    LinesFit(n, route.lines) && Extra(route.notes) && Extra(route.marks)
  }

  lemma PrintableTag(name: string, items: seq<Item>)
    requires PlainName(name) && Printable(items)
    ensures PrintableItem(Tag(name, items))
  {
  }

  lemma PrintableWords(text: string)
    ensures Printable(Words(text))
  {
  }

  lemma PointIsPrintable(n: Numbers, p: Vertex)
    requires Exact(n) && Fits(n, p)
    ensures PrintableItem(PointItem(n, p))
  {
    if p.ele.Some? {
      ExactAt(n, p.ele.value);
      PrintableTag("ele", [Text(n.show(p.ele.value))]);
    }
  }

  lemma TrackIsPrintable(n: Numbers, route: Route)
    requires Exact(n) && LinesFit(n, route.lines)
    ensures PrintableItem(TrackItem(n, route))
  {
    hide Words, PrintableItem, PointItem;
    PrintableWords(Title(route));
    PrintableTag("name", Words(Title(route)));
    forall i | 0 <= i < |route.lines|
      ensures PrintableItem(LineItems(n, route.lines)[i])
    {
      forall j | 0 <= j < |route.lines[i]|
        ensures PrintableItem(PointItems(n, route.lines[i])[j])
      {
        PointIsPrintable(n, route.lines[i][j]);
      }
      PointsAreChildren(n, route.lines[i]);
      PrintableTag("trkseg", PointItems(n, route.lines[i]));
    }
    PrintableTag("trk", [Tag("name", Words(Title(route)))] + LineItems(n, route.lines));
  }

  lemma PointsAreChildren(n: Numbers, line: seq<Vertex>)
    ensures forall i :: 0 <= i < |line| ==> PointItems(n, line)[i].Child?
  {
  }

  lemma MetadataIsPrintable(route: Route)
    requires Extra(route.notes)
    ensures PrintableItem(MetadataItem(route))
  {
    hide Words, PrintableItem;
    PrintableWords(Title(route));
    PrintableWords(route.provider);
    PrintableWords(route.profile);
    PrintableTag("name", Words(Title(route)));
    PrintableTag("provider", Words(route.provider));
    PrintableTag("provider_profile", Words(route.profile));
    var inner := [Tag("provider", Words(route.provider)), Tag("provider_profile", Words(route.profile))];
    PrintableTag("extensions", inner);
    PrintableTag("metadata", [Tag("name", Words(Title(route)))] + route.notes + [Tag("extensions", inner)]);
  }

  lemma GpxIsPrintable(n: Numbers, route: Route)
    requires Exact(n) && Writable(n, route)
    ensures Printable([Text("\n"), GpxItem(n, route)])
  {
    hide MetadataItem, TrackItem;
    MetadataIsPrintable(route);
    TrackIsPrintable(n, route);
    var items := [MetadataItem(route)] + route.marks + [TrackItem(n, route)];
    assert MetadataItem(route).Child? && TrackItem(n, route).Child? by { TopItems(n, route); }
    hide PrintableItem;
    assert Printable(items);
    PrintableGpx(items);
  }

  lemma TopItems(n: Numbers, route: Route)
    ensures MetadataItem(route).Child? && TrackItem(n, route).Child?
    ensures MetadataItem(route).element.name == "metadata" && TrackItem(n, route).element.name == "trk"
  {
  }

  lemma PrintableGpx(items: seq<Item>)
    requires Printable(items)
    ensures Printable([Text("\n"), Child(Element("gpx", GPX_ATTRIBUTES, items))])
  {
    assert PlainAttributes(GPX_ATTRIBUTES);
  }

  lemma InstructionIsPassed(inner: string, rest: string)
    requires '?' !in inner && '<' !in inner
    ensures Lex("<?" + inner + "?>" + rest) == Lex(rest)
    ensures Tame("<?" + inner + "?>")
  {
    hide Lex, Next;
    var header := "<?" + inner + "?>";
    NextIsInstruction(inner, rest);
    assert (header + rest)[|header|..] == rest;
    LexStep(header + rest, [], |header|, rest);
    assert [] + Lex(rest) == Lex(rest);
    TameTag("<", "?" + inner + "?>");
    assert "<" + ("?" + inner + "?>") == header;
  }

  lemma HeaderIsPassed(rest: string)
    ensures Lex(HEADER + rest) == Lex(rest) && Tame(HEADER)
  {
    hide Lex, Tame;
    DeclarationIsPlain();
    InstructionIsPassed(DECLARATION, rest);
  }

  lemma NextIsInstruction(inner: string, rest: string)
    requires '?' !in inner
    ensures Next("<?" + inner + "?>" + rest) == Cut([], |inner| + 4)
  {
    hide XmlLexer.Tag, Find, Decode, RunWhile;
    var s := "<?" + inner + "?>" + rest;
    assert s[2..] == inner + "?>" + rest;
    FindAfter(inner, rest);
    assert s[1] == '?' && COMMENT[1] == '!' && CDATA[1] == '!';
    assert !(COMMENT <= s) && !(CDATA <= s) && s[..2] == INSTRUCTION;
  }

  lemma DeclarationIsPlain()
    ensures '?' !in DECLARATION && '<' !in DECLARATION
  {
    var x, a, b, c, d := "xml ", "version=", "\"1.0\" ", "encoding=", "\"UTF-8\"";
    assert '?' !in x && '<' !in x;
    assert '?' !in a && '<' !in a;
    assert '?' !in b && '<' !in b;
    assert '?' !in c && '<' !in c;
    assert '?' !in d && '<' !in d;
  }

  // ---------------------------------------------------------------- the tree read back is the route

  lemma {:induction false} KidsConcat(a: seq<Item>, b: seq<Item>, name: string)
    ensures Kids(a + b, name) == Kids(a, name) + Kids(b, name)
    decreases |b|
  {
    if b == [] {
      assert a + b == a;
    } else {
      assert (a + b)[..|a + b| - 1] == a + b[..|b| - 1];
      KidsConcat(a, b[..|b| - 1], name);
    }
  }

  lemma KidsOfOne(item: Item, name: string)
    ensures Kids([item], name) == if item.Child? && item.element.name == name then [item.element] else []
  {
    assert [item][..0] == [];
  }

  lemma {:induction false} NoKids(items: seq<Item>, name: string)
    requires forall i :: 0 <= i < |items| ==> items[i].Child? && items[i].element.name != name
    ensures Kids(items, name) == []
  {
    if items != [] {
      NoKids(items[..|items| - 1], name);
    }
  }

  lemma {:induction false} AllKids(items: seq<Item>, name: string)
    requires forall i :: 0 <= i < |items| ==> items[i].Child? && items[i].element.name == name
    ensures |Kids(items, name)| == |items| && forall i :: 0 <= i < |items| ==> Kids(items, name)[i] == items[i].element
  {
    if items != [] {
      AllKids(items[..|items| - 1], name);
    }
  }

  lemma TextOfWords(items: seq<Item>, text: string)
    requires items != [] && items[0] == Tag("name", Words(text))
    ensures TextOf(items, "name") == Trim(text, JsSpace)
  {
    hide Trim, Kids, Words;
    assert items == [items[0]] + items[1..];
    KidsConcat([items[0]], items[1..], "name");
    KidsOfOne(items[0], "name");
    TextIsWords(text);
  }

  lemma TextIsWords(text: string)
    ensures AllText(Words(text)) == text
  {
    assert [Text(text)][..0] == [];
  }

  lemma PointIsReadBack(n: Numbers, p: Vertex)
    requires Exact(n) && Fits(n, p)
    ensures ReadPoint(n, PointItem(n, p).element)
         == if -90.0 <= p.lat <= 90.0 && -180.0 <= p.lon <= 180.0 then Some(p) else None
  {
    hide Trim, Kids, PlainNumber;
    var e := PointItem(n, p).element;
    var first := [("lon", n.show(p.lon))];
    assert e.attrs[..1] == first;
    assert Lookup(first, "lon") == Some(n.show(p.lon));
    assert Lookup(e.attrs, "lat") == Some(n.show(p.lat)) && Lookup(e.attrs, "lon") == Some(n.show(p.lon));
    ExactAt(n, p.lon);
    ExactAt(n, p.lat);
    ElevationIsReadBack(n, p);
  }

  lemma ElevationIsReadBack(n: Numbers, p: Vertex)
    requires Exact(n) && Fits(n, p)
    ensures n.read(TextOf(PointItem(n, p).element.items, "ele")) == p.ele
  {
    hide Trim, PlainNumber;
    if p.ele.Some? {
      var text := n.show(p.ele.value);
      ExactAt(n, p.ele.value);
      PlainNumberIsPlain(text);
      KidsOfOne(Tag("ele", [Text(text)]), "ele");
      assert [Text(text)][..0] == [];
      assert AllText([Text(text)]) == text;
    }
  }

  /** The points of a line that lie on Earth. */
  function Valid(line: seq<Vertex>): seq<Vertex> {
    if line == [] then []
    else
      var last := line[|line| - 1];
      Valid(line[..|line| - 1]) + (if OnEarth(last.lon, last.lat) then [last] else [])
  }

  function ValidLines(lines: seq<seq<Vertex>>): (r: seq<seq<Vertex>>)
    ensures |r| == |lines| && forall i :: 0 <= i < |lines| ==> r[i] == Valid(lines[i])
  {
    seq(|lines|, i requires 0 <= i < |lines| => Valid(lines[i]))
  }

  lemma {:induction false} LineIsReadBack(n: Numbers, line: seq<Vertex>, es: seq<Element>)
    requires Exact(n) && LineFits(n, line) && |es| == |line|
    requires forall i :: 0 <= i < |line| ==> es[i] == PointItem(n, line[i]).element
    ensures Collect(n, es) == Valid(line)
  {
    if line != [] {
      hide ReadPoint, PointItem;
      LineIsReadBack(n, line[..|line| - 1], es[..|es| - 1]);
      PointIsReadBack(n, line[|line| - 1]);
    }
  }

  lemma {:induction false} SegmentsAreReadBack(n: Numbers, lines: seq<seq<Vertex>>, es: seq<Element>)
    requires Exact(n) && LinesFit(n, lines) && |es| == |lines|
    requires forall i :: 0 <= i < |lines| ==> es[i].items == PointItems(n, lines[i])
    ensures Segments(n, es, "trkpt") == ValidLines(lines)
  {
    if lines != [] {
      hide Segments, Collect, Kids, PointItems, ValidLines, Exact;
      var last := |lines| - 1;
      SegmentsAreReadBack(n, lines[..last], es[..last]);
      SegmentsStep(n, es);
      PointsAreKids(n, lines[last]);
      LineIsReadBack(n, lines[last], Kids(PointItems(n, lines[last]), "trkpt"));
      ValidLinesStep(lines);
    }
  }

  lemma SegmentsStep(n: Numbers, es: seq<Element>)
    requires es != []
    ensures var last := |es| - 1;
            Segments(n, es, "trkpt") == Segments(n, es[..last], "trkpt") + [Collect(n, Kids(es[last].items, "trkpt"))]
  {
    hide Collect, Kids;
  }

  lemma ValidLinesStep(lines: seq<seq<Vertex>>)
    requires lines != []
    ensures ValidLines(lines) == ValidLines(lines[..|lines| - 1]) + [Valid(lines[|lines| - 1])]
  {
    hide Valid;
  }

  lemma PointsAreKids(n: Numbers, line: seq<Vertex>)
    ensures var es := Kids(PointItems(n, line), "trkpt");
            |es| == |line| && forall i :: 0 <= i < |line| ==> es[i] == PointItem(n, line[i]).element
  {
    AllKids(PointItems(n, line), "trkpt");
  }

  lemma TrackIsReadBack(n: Numbers, route: Route)
    requires Exact(n) && LinesFit(n, route.lines)
    ensures Segments(n, TrackSegments([TrackItem(n, route).element]), "trkpt") == ValidLines(route.lines)
  {
    hide Kids, Segments, Words, PointItems, LineItems, Exact;
    var es := Kids(LineItems(n, route.lines), "trkseg");
    TrackKids(n, route);
    LinesAreKids(n, route.lines);
    SegmentsAreReadBack(n, route.lines, es);
    SegmentsOfOne(TrackItem(n, route).element);
  }

  lemma TrackKids(n: Numbers, route: Route)
    ensures Kids(TrackItem(n, route).element.items, "trkseg") == Kids(LineItems(n, route.lines), "trkseg")
  {
    hide Kids, Words, LineItems;
    KidsConcat([Tag("name", Words(Title(route)))], LineItems(n, route.lines), "trkseg");
    KidsOfOne(Tag("name", Words(Title(route))), "trkseg");
  }

  lemma LinesAreKids(n: Numbers, lines: seq<seq<Vertex>>)
    ensures var es := Kids(LineItems(n, lines), "trkseg");
            |es| == |lines| && forall i :: 0 <= i < |lines| ==> es[i].items == PointItems(n, lines[i])
  {
    hide Kids, PointItems;
    AllKids(LineItems(n, lines), "trkseg");
  }

  lemma SegmentsOfOne(track: Element)
    ensures TrackSegments([track]) == Kids(track.items, "trkseg")
  {
    hide Kids;
    assert [track][..0] == [] && TrackSegments([]) == [];
  }

  lemma TopKids(n: Numbers, route: Route)
    requires Extra(route.marks)
    ensures var items := GpxItem(n, route).element.items;
            && Kids(items, "trk") == [TrackItem(n, route).element] && Kids(items, "rte") == []
            && Kids(items, "metadata") != [] && Kids(items, "metadata")[0] == MetadataItem(route).element
  {
    hide Kids, MetadataItem, TrackItem;
    var first, last := MetadataItem(route), TrackItem(n, route);
    TopItems(n, route);
    forall name | name in ["trk", "rte", "metadata"]
      ensures Kids([first] + route.marks + [last], name) == Kids([first], name) + Kids(route.marks, name) + Kids([last], name)
    {
      KidsConcat([first] + route.marks, [last], name);
      KidsConcat([first], route.marks, name);
    }
    NoKids(route.marks, "trk");
    NoKids(route.marks, "rte");
    forall name | name in ["trk", "rte", "metadata"]
      ensures Kids([first], name) == (if name == "metadata" then [first.element] else [])
      ensures Kids([last], name) == (if name == "trk" then [last.element] else [])
    {
      KidsOfOne(first, name);
      KidsOfOne(last, name);
    }
    assert "trk" in ["trk", "rte", "metadata"] && "rte" in ["trk", "rte", "metadata"] && "metadata" in ["trk", "rte", "metadata"];
  }

  lemma {:induction false} LongLineIsLong(lines: seq<seq<Vertex>>, i: nat)
    requires i < |lines|
    ensures |Flatten(lines)| >= |lines[i]|
  {
    if i > 0 {
      LongLineIsLong(lines[1..], i - 1);
    }
  }

  /** What a reader should find in a written route. */
  function Expected(route: Route): Reading {
    var lines := ValidLines(route.lines);
    if !HasLine(lines) then Refused(NoLine)
    else
      var points := Flatten(lines);
      Read(File(Trim(Title(route), JsSpace), if Complete(points) then points else Flat(points)))
  }

  lemma TreeIsReadBack(n: Numbers, route: Route)
    requires Exact(n) && Writable(n, route)
    ensures ReadTree(n, GpxItem(n, route).element) == Expected(route)
  {
    hide Kids, Segments, TrackSegments, MetadataItem, TrackItem, Trim, ValidLines, Complete, Flat;
    TopKids(n, route);
    TrackIsReadBack(n, route);
    NamesAreReadBack(n, route);
    NoSegments(n);
    var lines := ValidLines(route.lines);
    if HasLine(lines) {
      var i :| 0 <= i < |lines| && |lines[i]| >= 2;
      LongLineIsLong(lines, i);
    }
  }

  lemma NoSegments(n: Numbers)
    ensures Segments(n, [], "rtept") == []
  {
  }

  lemma NamesAreReadBack(n: Numbers, route: Route)
    ensures TextOf(TrackItem(n, route).element.items, "name") == Trim(Title(route), JsSpace)
    ensures TextOf(MetadataItem(route).element.items, "name") == Trim(Title(route), JsSpace)
  {
    hide TextOf, Trim, Words;
    TextOfWords(TrackItem(n, route).element.items, Title(route));
    TextOfWords(MetadataItem(route).element.items, Title(route));
  }

  lemma WrittenIsTame(n: Numbers, route: Route)
    requires Exact(n) && Writable(n, route)
    ensures Tame(WriteGpx(n, route)) && WithoutMark(WriteGpx(n, route)) == WriteGpx(n, route)
  {
    hide Tame, PrintItems, WriteGpx, GpxItem;
    GpxIsPrinted(n, route);
    GpxIsPrintable(n, route);
    PrintIsTame([Text("\n"), GpxItem(n, route)]);
    HeaderIsPassed("");
    TameConcat(HEADER, PrintItems([Text("\n"), GpxItem(n, route)]));
    assert WriteGpx(n, route)[0] == '<';
  }

  /**
   Reading a written route gives back, for every route: its points on Earth in order, with their
   elevations when all of them have one, under the trimmed name; it is refused only when no line has
   two points on Earth.
   */
  lemma WrittenIsReadBack(n: Numbers, route: Route)
    requires Exact(n) && Writable(n, route)
    ensures ReadGpx(n, WriteGpx(n, route)) == Expected(route)
  {
    assert LinesFit(n, route.lines);
    hide *;
    var text, items := WriteGpx(n, route), [Text("\n"), GpxItem(n, route)];
    WrittenIsTame(n, route);
    TameMeansNoDoctype(text);
    GpxIsPrinted(n, route);
    GpxIsPrintable(n, route);
    HeaderIsPassed(PrintItems(items));
    ReadPrinted(items);
    GpxIsFirst(n, route);
    TreeIsReadBack(n, route);
    ReadingSteps(n, text, items, GpxItem(n, route).element);
  }

  lemma GpxIsFirst(n: Numbers, route: Route)
    ensures GpxItem(n, route).Child? && Kids([Text("\n"), GpxItem(n, route)], "gpx") == [GpxItem(n, route).element]
  {
    hide Kids, MetadataItem, TrackItem;
    KidsConcat([Text("\n")], [GpxItem(n, route)], "gpx");
    KidsOfOne(Text("\n"), "gpx");
    KidsOfOne(GpxItem(n, route), "gpx");
    assert [Text("\n")] + [GpxItem(n, route)] == [Text("\n"), GpxItem(n, route)];
  }

  lemma ReadingSteps(n: Numbers, text: string, items: seq<Item>, gpx: Element)
    requires WithoutMark(text) == text && !DeclaresDoctype(text) && Build(Lex(text)) == Built(items) && Kids(items, "gpx") == [gpx]
    ensures ReadGpx(n, text) == ReadTree(n, gpx)
  {
    hide WithoutMark, DeclaresDoctype, Build, Lex, Kids, ReadTree;
  }
}
