/**
 The event stream of a plan: the server's printer (`_sse` in api.py) and the page's incremental
 reader (`createParser` in frontend/stream.js). Text is cut and counted in `char`s, which are Unicode
 scalar values where JavaScript has UTF-16 code units. JSON is a parameter: any encoding into text
 without line ends, with an inverse.
 */
module EventStream {
  import opened Common

  const MAX_EVENT_CHARS: nat := 4 * 1024 * 1024

  datatype Kind = Step | Route | Result | Error

  datatype Event<D> = Event(kind: Kind, data: D)

  /** JSON as a pair of functions: `encode` is json.dumps, `decode` is JSON.parse (None = it throws). */
  datatype Codec<!D> = Codec(encode: D -> string, decode: string -> Option<D>)

  ghost predicate Faithful<D(!new)>(json: Codec<D>) {
    forall d :: json.decode(json.encode(d)) == Some(d) && '\n' !in json.encode(d) && '\r' !in json.encode(d)
  }

  // ---------------------------------------------------------------- cutting the text into blocks

  /** Length of a line end (a line feed, perhaps after a carriage return) at `i`; 0 if none. */
  function LineEnd(s: string, i: nat): (n: nat)
    ensures n > 0 ==> i + n <= |s|
  {
    if i < |s| && s[i] == '\n' then 1
    else if i + 1 < |s| && s[i] == '\r' && s[i + 1] == '\n' then 2
    else 0
  }

  /** Length of a separator (two line ends in a row) at `i`; 0 if there is none. */
  function Separator(s: string, i: nat): (n: nat)
    ensures n > 0 ==> n >= 2 && i + n <= |s|
  {
    var first := LineEnd(s, i);
    var second := LineEnd(s, i + first);
    if first == 0 || second == 0 then 0 else first + second
  }

  /** Where the first separator at or after `i` starts (`buffer.search`); None when there is none. */
  function Search(s: string, i: nat := 0): (r: Option<nat>)
    ensures r.Some? ==> i <= r.value < |s| && Separator(s, r.value) > 0
    decreases |s| - i
  {
    if i >= |s| then None
    else if Separator(s, i) > 0 then Some(i)
    else Search(s, i + 1)
  }

  datatype Pieces = Pieces(blocks: seq<string>, rest: string)

  /** A whole text cut at every separator, and what is left after the last one. */
  function Cut(s: string): Pieces
    decreases |s|
  {
    match Search(s)
    case None => Pieces([], s)
    case Some(k) =>
      var later := Cut(s[k + Separator(s, k)..]);
      Pieces([s[..k]] + later.blocks, later.rest)
  }

  lemma SeparatorIsStable(a: string, b: string, i: nat)
    requires Separator(a, i) > 0
    ensures Separator(a + b, i) == Separator(a, i)
  {
  }

  /** Text appended after a later separator cannot complete an earlier one. */
  lemma NoLateSeparator(a: string, b: string, i: nat, k: nat)
    requires i < k && Separator(a, i) == 0 && Separator(a, k) > 0
    ensures Separator(a + b, i) == 0
  {
  }

  /** A separator found in a text stays the first one, and as long, whatever is appended. */
  lemma {:induction false} SearchIsStable(a: string, b: string, i: nat)
    requires Search(a, i).Some?
    ensures Search(a + b, i) == Search(a, i)
    ensures Separator(a + b, Search(a, i).value) == Separator(a, Search(a, i).value)
    decreases |a| - i
  {
    if Separator(a, i) > 0 {
      SeparatorIsStable(a, b, i);
    } else {
      NoLateSeparator(a, b, i, Search(a, i).value);
      SearchIsStable(a, b, i + 1);
    }
  }

  lemma CutStep(s: string, k: nat, n: nat)
    requires Search(s) == Some(k) && n == k + Separator(s, k)
    ensures n <= |s| && Cut(s) == Pieces([s[..k]] + Cut(s[n..]).blocks, Cut(s[n..]).rest)
  {
    hide Search, Separator;
  }

  lemma CutUncut(s: string)
    requires Search(s).None?
    ensures Cut(s) == Pieces([], s)
  {
  }

  /** Reading a text in two goes is reading it in one: what is left over waits for the rest. */
  lemma {:induction false} CutConcat(a: string, b: string)
    ensures Cut(a + b).blocks == Cut(a).blocks + Cut(Cut(a).rest + b).blocks
    ensures Cut(a + b).rest == Cut(Cut(a).rest + b).rest
    decreases |a|
  {
    hide *;
    if Search(a).None? {
      CutUncut(a);
    } else {
      var k := Search(a).value;
      var n := k + Separator(a, k);
      SearchIsStable(a, b, 0);
      CutStep(a, k, n);
      CutStep(a + b, k, n);
      assert (a + b)[n..] == a[n..] + b;
      assert (a + b)[..k] == a[..k];
      CutConcat(a[n..], b);
      ConcatAssociates([a[..k]], Cut(a[n..]).blocks, Cut(Cut(a).rest + b).blocks);
    }
  }

  /** What is left over holds no separator. */
  lemma {:induction false} RestIsUncut(s: string)
    ensures Search(Cut(s).rest) == None
    decreases |s|
  {
    match Search(s)
    case None =>
    case Some(k) => RestIsUncut(s[k + Separator(s, k)..]);
  }

  // ---------------------------------------------------------------- reading one block

  function Split(s: string): (lines: seq<string>)
    ensures lines != []
  {
    if s == "" then [""]
    else if s[0] == '\n' then [""] + Split(s[1..])
    else var later := Split(s[1..]); [[s[0]] + later[0]] + later[1..]
  }

  function Colon(line: string): (r: Option<nat>)
    ensures r.Some? ==> r.value < |line|
  {
    if line == "" then None
    else if line[0] == ':' then Some(0)
    else match Colon(line[1..]) case None => None case Some(k) => Some(k + 1)
  }

  /** The fields of a block read so far: its event name and its data lines. */
  datatype Fields = Fields(name: string, data: seq<string>)

  function WithoutReturn(raw: string): string {
    if raw != "" && raw[|raw| - 1] == '\r' then raw[..|raw| - 1] else raw
  }

  function WithoutSpace(value: string): string {
    if value != "" && value[0] == ' ' then value[1..] else value
  }

  function ReadLine(fields: Fields, raw: string): Fields {
    var line := WithoutReturn(raw);
    if line == "" || line[0] == ':' then fields
    else
      var colon := Colon(line);
      var field := if colon.None? then line else line[..colon.value];
      var value := WithoutSpace(if colon.None? then "" else line[colon.value + 1..]);
      if field == "event" then fields.(name := value)
      else if field == "data" then fields.(data := fields.data + [value])
      else fields
  }

  function ReadLines(fields: Fields, lines: seq<string>): Fields
    decreases |lines|
  {
    if lines == [] then fields else ReadLines(ReadLine(fields, lines[0]), lines[1..])
  }

  function Name(kind: Kind): string {
    match kind
    case Step => "step"
    case Route => "route"
    case Result => "result"
    case Error => "error"
  }

  function KindOf(name: string): Option<Kind> {
    if name == "step" then Some(Step)
    else if name == "route" then Some(Route)
    else if name == "result" then Some(Result)
    else if name == "error" then Some(Error)
    else None
  }

  function ParseBlock<D>(json: Codec<D>, block: string): Option<Event<D>> {
    var fields := ReadLines(Fields("message", []), Split(block));
    var kind := KindOf(fields.name);
    if kind.None? || fields.data == [] then None
    else match json.decode(Join(fields.data))
      case None => None
      case Some(data) => Some(Event(kind.value, data))
  }

  function Listed<D>(json: Codec<D>, block: string): seq<Event<D>> {
    match ParseBlock(json, block) case None => [] case Some(event) => [event]
  }

  function ParseBlocks<D>(json: Codec<D>, blocks: seq<string>): seq<Event<D>> {
    if blocks == [] then [] else Listed(json, blocks[0]) + ParseBlocks(json, blocks[1..])
  }

  lemma ParseBlocksStep<D>(json: Codec<D>, block: string, later: seq<string>)
    ensures ParseBlocks(json, [block] + later) == Listed(json, block) + ParseBlocks(json, later)
  {
    assert ([block] + later)[1..] == later;
  }

  lemma {:induction false} ParseBlocksConcat<D>(json: Codec<D>, a: seq<string>, b: seq<string>)
    ensures ParseBlocks(json, a + b) == ParseBlocks(json, a) + ParseBlocks(json, b)
  {
    if a == [] {
      assert a + b == b;
    } else {
      assert (a + b)[1..] == a[1..] + b;
      ParseBlocksConcat(json, a[1..], b);
      ConcatAssociates(Listed(json, a[0]), ParseBlocks(json, a[1..]), ParseBlocks(json, b));
    }
  }

  lemma NoBlocks<D>(json: Codec<D>)
    ensures ParseBlocks(json, []) == []
  {
  }

  // ---------------------------------------------------------------- the incremental reader

  function Kept(rest: string): string {
    if |rest| > MAX_EVENT_CHARS then "" else rest
  }

  class Parser<D(!new)> {
    const json: Codec<D>
    var buffer: string

    constructor (json: Codec<D>)
      ensures buffer == "" && this.json == json
    {
      this.json := json;
      buffer := "";
    }

    /** The events a piece of text completes; an event cut in two waits for its rest. */
    method Push(text: string) returns (events: seq<Event<D>>)
      modifies this
      ensures events == ParseBlocks(json, Cut(old(buffer) + text).blocks)
      ensures buffer == Kept(Cut(old(buffer) + text).rest)
      ensures |buffer| <= MAX_EVENT_CHARS
    {
      hide Search, Separator, Cut, ParseBlock, ParseBlocks;
      buffer := buffer + text;
      ghost var whole := buffer;
      events := [];
      var cut := Search(buffer);
      while cut.Some?
        invariant cut == Search(buffer)
        invariant ParseBlocks(json, Cut(whole).blocks) == events + ParseBlocks(json, Cut(buffer).blocks)
        invariant Cut(whole).rest == Cut(buffer).rest
        decreases |buffer|
      {
        var n := cut.value + Separator(buffer, cut.value);
        CutStep(buffer, cut.value, n);
        var parsed := ParseBlock(json, buffer[..cut.value]);
        ghost var rest := buffer[n..];
        ParseBlocksStep(json, buffer[..cut.value], Cut(rest).blocks);
        ConcatAssociates(events, Listed(json, buffer[..cut.value]), ParseBlocks(json, Cut(rest).blocks));
        buffer := buffer[n..];
        events := events + (if parsed.Some? then [parsed.value] else []);
        cut := Search(buffer);
      }
      CutUncut(buffer);
      NoBlocks(json);
      if |buffer| > MAX_EVENT_CHARS {
        buffer := "";
      }
    }

    /** The pieces of a stream, one push each, as the page reads them off the network. */
    method ReadAll(pieces: seq<string>) returns (events: seq<Event<D>>)
      modifies this
      ensures events == Reading(json, old(buffer), pieces)
    {
      hide Cut, ParseBlocks, Kept, Flatten;
      events := [];
      for i := 0 to |pieces|
        invariant Reading(json, old(buffer), pieces) == events + Reading(json, buffer, pieces[i..])
      {
        var more := Push(pieces[i]);
        assert pieces[i..][1..] == pieces[i + 1..];
        events := events + more;
      }
    }
  }

  /** All events read from `pieces` by a reader that holds `buffer`. */
  function Reading<D>(json: Codec<D>, buffer: string, pieces: seq<string>): seq<Event<D>>
    decreases |pieces|
  {
    if pieces == [] then []
    else
      var cut := Cut(buffer + pieces[0]);
      ParseBlocks(json, cut.blocks) + Reading(json, Kept(cut.rest), pieces[1..])
  }

  /** No push leaves an unfinished event longer than the reader keeps. */
  predicate Fits(buffer: string, pieces: seq<string>)
    decreases |pieces|
  {
    pieces == [] ||
    var cut := Cut(buffer + pieces[0]);
    |cut.rest| <= MAX_EVENT_CHARS && Fits(cut.rest, pieces[1..])
  }

  lemma UncutBuffer<D>(json: Codec<D>, buffer: string)
    requires Search(buffer) == None
    ensures ParseBlocks(json, Cut(buffer).blocks) == []
  {
  }

  /** For every text whatsoever: the events do not depend on how the network cuts it. */
  lemma {:induction false} ReadingIgnoresCuts<D>(json: Codec<D>, buffer: string, pieces: seq<string>)
    requires Search(buffer) == None && Fits(buffer, pieces)
    ensures Reading(json, buffer, pieces) == ParseBlocks(json, Cut(buffer + Flatten(pieces)).blocks)
    decreases |pieces|
  {
    hide Cut, Search, ParseBlocks;
    if pieces == [] {
      assert buffer + Flatten(pieces) == buffer;
      UncutBuffer(json, buffer);
    } else {
      var first, later := buffer + pieces[0], Flatten(pieces[1..]);
      var cut := Cut(first);
      RestIsUncut(first);
      ReadingIgnoresCuts(json, cut.rest, pieces[1..]);
      CutConcat(first, later);
      assert buffer + Flatten(pieces) == first + later;
      ParseBlocksConcat(json, cut.blocks, Cut(cut.rest + later).blocks);
    }
  }

  // ---------------------------------------------------------------- the printer and the round trip

  function Sse<D>(json: Codec<D>, event: Event<D>): string {
    Body(json, event) + "\n\n"
  }

  function Body<D>(json: Codec<D>, event: Event<D>): string {
    EventLine(event.kind) + "\n" + DataLine(json.encode(event.data))
  }

  function EventLine(kind: Kind): string {
    "event: " + Name(kind)
  }

  function DataLine(text: string): string {
    "data: " + text
  }

  function Print<D>(json: Codec<D>, events: seq<Event<D>>): string {
    if events == [] then "" else Sse(json, events[0]) + Print(json, events[1..])
  }

  /** The search passes over characters that are no line ends. */
  lemma {:induction false} SearchSkips(s: string, i: nat, k: nat)
    requires i <= k <= |s| && forall j :: i <= j < k ==> s[j] != '\n' && s[j] != '\r'
    ensures Search(s, i) == Search(s, k)
    decreases k - i
  {
    if i < k {
      SearchSkips(s, i + 1, k);
    }
  }

  lemma {:induction false} SplitLine(a: string, b: string)
    requires '\n' !in a
    ensures Split(a) == [a] && Split(a + "\n" + b) == [a] + Split(b)
  {
    if a == "" {
      assert a + "\n" + b == "\n" + b;
    } else {
      SplitLine(a[1..], b);
      assert (a + "\n" + b)[1..] == a[1..] + "\n" + b;
      assert a == [a[0]] + a[1..];
    }
  }

  lemma {:induction false} ColonAfter(a: string, b: string)
    requires ':' !in a
    ensures Colon(a + ":" + b) == Some(|a|)
  {
    if a == "" {
      assert a + ":" + b == ":" + b;
    } else {
      ColonAfter(a[1..], b);
      assert (a + ":" + b)[1..] == a[1..] + ":" + b;
    }
  }

  /** The first separator of a printed event is its end, also behind a stray line feed. */
  lemma SearchFindsEnd(ahead: string, head: string, line: string, more: string)
    requires ahead == "" || ahead == "\n"
    requires '\n' !in head && '\r' !in head && '\n' !in line && '\r' !in line && head != "" && line != ""
    ensures var n := |ahead| + |head| + 1 + |line|;
            var text := ahead + head + "\n" + line + "\n\n" + more;
            Search(text) == Some(n) && Separator(text, n) == 2
  {
    hide Search, Separator;
    var text := ahead + head + "\n" + line + "\n\n" + more;
    var k := |ahead| + |head|;
    var n := k + 1 + |line|;
    assert text[k] == '\n' && text[n] == '\n' && text[n + 1] == '\n';
    assert text[|ahead|..k] == head && text[k + 1..n] == line;
    forall j | |ahead| <= j < k ensures text[j] == head[j - |ahead|] && head[j - |ahead|] in head {
    }
    forall j | k < j < n ensures text[j] == line[j - k - 1] && line[j - k - 1] in line {
    }
    EndIsFound(text, |ahead|, k, n);
  }

  /** Two lines, behind a stray line feed or not, and an empty one. */
  lemma EndIsFound(text: string, a: nat, k: nat, n: nat)
    requires a <= 1 && a < k && k + 1 < n && n + 1 < |text| && (a == 1 ==> text[0] == '\n')
    requires text[k] == '\n' && text[n] == '\n' && text[n + 1] == '\n'
    requires forall j :: a <= j < k || k < j < n ==> text[j] != '\n' && text[j] != '\r'
    ensures Search(text) == Some(n) && Separator(text, n) == 2
  {
    SearchSkips(text, a, k);
    SearchSkips(text, k + 1, n);
    OneLineEnd(text, k);
    assert a == 1 ==> Separator(text, 0) == 0;
  }

  lemma OneLineEnd(text: string, k: nat)
    requires k + 1 < |text| && text[k] == '\n' && text[k + 1] != '\n' && text[k + 1] != '\r'
    ensures Separator(text, k) == 0 && Search(text, k) == Search(text, k + 1)
  {
  }

  lemma ReadEventLine(kind: Kind)
    ensures ReadLine(Fields("message", []), EventLine(kind)) == Fields(Name(kind), [])
  {
    var line := EventLine(kind);
    assert line == "event" + ":" + (" " + Name(kind));
    ColonAfter("event", " " + Name(kind));
    assert line[..5] == "event" && line[6..] == " " + Name(kind);
  }

  lemma ReadDataLine(name: string, text: string)
    requires '\r' !in text
    ensures ReadLine(Fields(name, []), DataLine(text)) == Fields(name, [text])
  {
    var line := DataLine(text);
    assert line == "data" + ":" + (" " + text);
    ColonAfter("data", " " + text);
    assert line[..4] == "data" && line[5..] == " " + text;
    assert line[|line| - 1] != '\r';
  }

  lemma PrintedLines<D(!new)>(json: Codec<D>, event: Event<D>)
    requires Faithful(json)
    ensures var head, line := EventLine(event.kind), DataLine(json.encode(event.data));
            && '\n' !in head && '\r' !in head && '\n' !in line && '\r' !in line
            && head != "" && line != ""
  {
  }

  lemma ReadPrintedLines(kind: Kind, text: string)
    requires '\r' !in text
    ensures ReadLines(Fields("message", []), [EventLine(kind), DataLine(text)]) == Fields(Name(kind), [text])
    ensures ReadLines(Fields("message", []), ["", EventLine(kind), DataLine(text)]) == Fields(Name(kind), [text])
  {
    hide Colon, EventLine, DataLine, WithoutReturn, WithoutSpace;
    var head, line, start := EventLine(kind), DataLine(text), Fields("message", []);
    ReadEventLine(kind);
    ReadDataLine(Name(kind), text);
    ReadLinesStep(Fields(Name(kind), [text]), []);
    ReadLinesStep(Fields(Name(kind), []), [line]);
    assert [line][1..] == [];
    ReadLinesStep(start, [head, line]);
    assert [head, line][1..] == [line];
    ReadLinesStep(start, ["", head, line]);
    assert ["", head, line][1..] == [head, line];
    assert ReadLine(start, "") == start by { assert WithoutReturn("") == "" by { EmptyLine(); } }
  }

  lemma EmptyLine()
    ensures WithoutReturn("") == ""
  {
  }

  lemma ReadLinesStep(fields: Fields, lines: seq<string>)
    ensures lines == [] ==> ReadLines(fields, lines) == fields
    ensures lines != [] ==> ReadLines(fields, lines) == ReadLines(ReadLine(fields, lines[0]), lines[1..])
  {
  }

  lemma SplitPrinted<D(!new)>(json: Codec<D>, event: Event<D>)
    requires Faithful(json)
    ensures var lines := [EventLine(event.kind), DataLine(json.encode(event.data))];
            Split(Body(json, event)) == lines && Split("\n" + Body(json, event)) == [""] + lines
  {
    hide EventLine, DataLine;
    var head, line := EventLine(event.kind), DataLine(json.encode(event.data));
    PrintedLines(json, event);
    SplitLine(head, line);
    SplitLine(line, "");
    assert ("\n" + Body(json, event))[1..] == Body(json, event);
  }

  /** Reading one printed block gives back the event, also behind a stray line feed. */
  lemma ParsePrinted<D(!new)>(json: Codec<D>, event: Event<D>)
    requires Faithful(json)
    ensures ParseBlock(json, Body(json, event)) == Some(event)
    ensures ParseBlock(json, "\n" + Body(json, event)) == Some(event)
  {
    hide EventLine, DataLine, Split, Body, ReadLines;
    var text := json.encode(event.data);
    SplitPrinted(json, event);
    ReadPrintedLines(event.kind, text);
    assert [""] + [EventLine(event.kind), DataLine(text)] == ["", EventLine(event.kind), DataLine(text)];
    assert Join([text]) == text;
  }

  /** The first event of a printed text is its first block, also behind a stray line feed. */
  lemma CutFirst<D(!new)>(json: Codec<D>, ahead: string, event: Event<D>, more: string)
    requires Faithful(json) && (ahead == "" || ahead == "\n")
    ensures Cut(ahead + (Sse(json, event) + more))
         == Pieces([ahead + Body(json, event)] + Cut(more).blocks, Cut(more).rest)
  {
    hide EventLine, DataLine, Cut, Search, Separator;
    var head, line := EventLine(event.kind), DataLine(json.encode(event.data));
    PrintedLines(json, event);
    SearchFindsEnd(ahead, head, line, more);
    var text := ahead + head + "\n" + line + "\n\n" + more;
    assert ahead + (Sse(json, event) + more) == text;
    var n := |ahead| + |head| + 1 + |line|;
    CutStep(text, n, n + 2);
    assert text[n + 2..] == more;
    assert text[..n] == ahead + Body(json, event);
  }

  lemma SearchTiny()
    ensures Search("") == None && Search("\n") == None
  {
  }

  /** Cutting a printed text, also behind a stray line feed, gives back its events. */
  lemma {:induction false} CutPrinted<D(!new)>(json: Codec<D>, events: seq<Event<D>>)
    requires Faithful(json)
    ensures Cut(Print(json, events)).rest == ""
    ensures ParseBlocks(json, Cut(Print(json, events)).blocks) == events
    ensures ParseBlocks(json, Cut("\n" + Print(json, events)).blocks) == events
  {
    hide Cut, ParseBlock, ParseBlocks, Sse, Search, Separator, LineEnd;
    if events == [] {
      SearchTiny();
      assert "\n" + Print(json, events) == "\n";
      CutUncut("");
      CutUncut("\n");
      NoBlocks(json);
    } else {
      var event, more := events[0], Print(json, events[1..]);
      CutPrinted(json, events[1..]);
      ParsePrinted(json, event);
      CutFirst(json, "", event, more);
      CutFirst(json, "\n", event, more);
      assert "" + (Sse(json, event) + more) == Print(json, events);
      assert "" + Body(json, event) == Body(json, event);
      ParseBlocksStep(json, Body(json, event), Cut(more).blocks);
      ParseBlocksStep(json, "\n" + Body(json, event), Cut(more).blocks);
      assert [event] + events[1..] == events;
    }
  }

  // ---------------------------------------------------------------- what the network may do

  /** Cutting the events printed before a text, then the text. */
  lemma CutAfterPrinted<D(!new)>(json: Codec<D>, events: seq<Event<D>>, text: string)
    requires Faithful(json)
    ensures Cut(Print(json, events) + text).rest == Cut(text).rest
    ensures ParseBlocks(json, Cut(Print(json, events) + text).blocks) == events + ParseBlocks(json, Cut(text).blocks)
  {
    hide Cut, ParseBlocks, Print;
    CutPrinted(json, events);
    CutConcat(Print(json, events), text);
    assert "" + text == text;
    ParseBlocksConcat(json, Cut(Print(json, events)).blocks, Cut(text).blocks);
  }

  lemma {:induction false} PrintConcat<D>(json: Codec<D>, a: seq<Event<D>>, b: seq<Event<D>>)
    ensures Print(json, a + b) == Print(json, a) + Print(json, b)
  {
    if a == [] {
      assert a + b == b;
    } else {
      assert (a + b)[1..] == a[1..] + b;
      PrintConcat(json, a[1..], b);
      ConcatAssociates(Sse(json, a[0]), Print(json, a[1..]), Print(json, b));
    }
  }

  lemma SeparatorFits(s: string, i: nat)
    ensures Separator(s, i) > 0 ==> i + Separator(s, i) <= |s|
  {
  }

  lemma SearchPersists(p: string, q: string)
    ensures var found := Search(p);
            found.Some? ==> Search(p + q) == found && found.value + Separator(p + q, found.value) <= |p|
  {
    hide Search, Separator;
    if Search(p).Some? {
      SearchIsStable(p, q, 0);
      SeparatorFits(p, Search(p).value);
    }
  }

  lemma EndOfPrinted<D(!new)>(json: Codec<D>, event: Event<D>)
    requires Faithful(json)
    ensures var n := |Body(json, event)|;
            Search(Sse(json, event)) == Some(n) && Separator(Sse(json, event), n) == 2
  {
    hide EventLine, DataLine, Search, Separator;
    var head, line := EventLine(event.kind), DataLine(json.encode(event.data));
    PrintedLines(json, event);
    SearchFindsEnd("", head, line, "");
    assert Sse(json, event) == "" + head + "\n" + line + "\n\n" + "";
  }

  /** A printed event without its last character is not an event yet. */
  lemma UnfinishedIsUncut<D(!new)>(json: Codec<D>, event: Event<D>, p: string)
    requires Faithful(json) && p <= Sse(json, event) && |p| < |Sse(json, event)|
    ensures Cut(p) == Pieces([], p)
  {
    hide Cut, Search, Separator, Body;
    EndOfPrinted(json, event);
    SearchPersists(p, Sse(json, event)[|p|..]);
    assert p + Sse(json, event)[|p|..] == Sse(json, event);
    CutUncut(p);
  }

  /** A stream that breaks off anywhere has told some of its events, in order, and nothing else. */
  lemma {:induction false} CutBrokenOff<D(!new)>(json: Codec<D>, events: seq<Event<D>>, p: string)
    returns (n: nat)
    requires Faithful(json) && p <= Print(json, events)
    ensures n <= |events| && ParseBlocks(json, Cut(p).blocks) == events[..n]
    ensures p == Print(json, events[..n]) + Cut(p).rest
    ensures |p| < |Print(json, events)| ==> n < |events| && |Cut(p).rest| < |Sse(json, events[n])|
  {
    hide Cut, ParseBlocks, Sse, Body;
    NoBlocks(json);
    if events == [] {
      CutUncut("");
      n := 0;
    } else {
      var first, more := Sse(json, events[0]), Print(json, events[1..]);
      if |p| < |first| {
        assert p <= first;
        UnfinishedIsUncut(json, events[0], p);
        n := 0;
        assert Print(json, events[..0]) + p == p;
      } else {
        var q := p[|first|..];
        assert p == first + q;
        assert q <= more;
        n := CutBrokenOff(json, events[1..], q);
        CutAfterPrinted(json, [events[0]], q);
        assert Print(json, [events[0]]) + q == p by { PrintOne(json, events[0]); }
        assert [events[0]] + events[1..][..n] == events[..n + 1];
        PrintConcat(json, [events[0]], events[1..][..n]);
        PrintOne(json, events[0]);
        n := n + 1;
      }
    }
  }

  lemma PrintOne<D>(json: Codec<D>, event: Event<D>)
    ensures Print(json, [event]) == Sse(json, event)
  {
    assert [event][1..] == [];
  }

  /** No printed event is longer than what the reader keeps, less the character that completes it. */
  ghost predicate ShortEnough<D>(json: Codec<D>, events: seq<Event<D>>) {
    forall event <- events :: |Sse(json, event)| <= 4 * 1024 * 1024 + 1
  }

  /** However a printed stream is cut, it is read back as exactly its events. */
  ghost predicate ReadsBack<D>(json: Codec<D>, events: seq<Event<D>>) {
    forall pieces :: Flatten(pieces) == Print(json, events) ==> Reading(json, "", pieces) == events
  }

  /** Wherever a stream of short enough events is broken off, what is left over fits. */
  lemma RestIsShort<D(!new)>(json: Codec<D>, events: seq<Event<D>>, p: string)
    requires Faithful(json) && ShortEnough(json, events) && p <= Print(json, events)
    ensures |Cut(p).rest| <= MAX_EVENT_CHARS
  {
    hide Cut, Sse, Print, ParseBlocks;
    var n := CutBrokenOff(json, events, p);
    if |p| < |Print(json, events)| {
      assert events[n] in events;
    } else {
      assert p == Print(json, events);
      CutPrinted(json, events);
    }
  }

  lemma {:induction false} PrintedFits<D(!new)>(json: Codec<D>, events: seq<Event<D>>, done: string, pieces: seq<string>)
    requires Faithful(json) && ShortEnough(json, events)
    requires done + Flatten(pieces) <= Print(json, events)
    ensures Fits(Cut(done).rest, pieces)
    decreases |pieces|
  {
    if pieces != [] {
      hide Cut, Sse, Print, ParseBlocks;
      var next := done + pieces[0];
      ConcatAssociates(done, pieces[0], Flatten(pieces[1..]));
      CutConcat(done, pieces[0]);
      assert next <= Print(json, events);
      RestIsShort(json, events, next);
      PrintedFits(json, events, next, pieces[1..]);
    }
  }

  /** A stream of short enough events, broken off or not, is read as the events that arrived whole. */
  lemma ReadingBrokenOff<D(!new)>(json: Codec<D>, events: seq<Event<D>>, pieces: seq<string>)
    requires Faithful(json) && ShortEnough(json, events)
    requires Flatten(pieces) <= Print(json, events)
    ensures Reading(json, "", pieces) <= events
    ensures Flatten(pieces) == Print(json, events) ==> Reading(json, "", pieces) == events
  {
    hide Cut, Sse, Print, ParseBlocks;
    CutUncut("");
    assert "" + Flatten(pieces) == Flatten(pieces);
    PrintedFits(json, events, "", pieces);
    ReadingIgnoresCuts(json, "", pieces);
    var n := CutBrokenOff(json, events, Flatten(pieces));
    CutPrinted(json, events);
  }

  /** An event longer than the reader keeps is lost, and only it, when the cut is before its last character. */
  lemma LongEventIsLost<D(!new)>(json: Codec<D>, before: seq<Event<D>>, long: Event<D>, after: seq<Event<D>>)
    returns (pieces: seq<string>)
    requires Faithful(json) && |Sse(json, long)| > 4 * 1024 * 1024 + 1
    ensures Flatten(pieces) == Print(json, before + [long] + after)
    ensures Reading(json, "", pieces) == before + after
  {
    hide Cut, ParseBlocks, Print;
    var text := Sse(json, long);
    var almost := text[..|text| - 1];
    var first, second := Print(json, before) + almost, "\n" + Print(json, after);
    pieces := [first, second];
    assert text == almost + "\n";
    assert Flatten(pieces) == Print(json, before + [long] + after) by {
      PrintConcat(json, before + [long], after);
      PrintConcat(json, before, [long]);
      PrintOne(json, long);
      assert Flatten([second]) == second by { assert [second][1..] == []; }
      assert pieces[1..] == [second];
    }
    CutAfterPrinted(json, before, almost);
    UnfinishedIsUncut(json, long, almost);
    NoBlocks(json);
    CutPrinted(json, after);
    assert "" + first == first && "" + second == second;
    assert pieces[1..] == [second];
    ReadingOne(json, second);
  }

  lemma ReadingOne<D>(json: Codec<D>, piece: string)
    ensures Reading(json, "", [piece]) == ParseBlocks(json, Cut("" + piece).blocks)
  {
    assert [piece][1..] == [];
  }

  /** The exact condition under which printed events survive every way of cutting them. */
  lemma ReadsBackIffShortEnough<D(!new)>(json: Codec<D>, events: seq<Event<D>>)
    requires Faithful(json)
    ensures ReadsBack(json, events) <==> ShortEnough(json, events)
  {
    hide Cut, Sse, Print, Reading;
    if ShortEnough(json, events) {
      forall pieces | Flatten(pieces) == Print(json, events)
        ensures Reading(json, "", pieces) == events
      {
        ReadingBrokenOff(json, events, pieces);
      }
    } else {
      var i :| 0 <= i < |events| && |Sse(json, events[i])| > 4 * 1024 * 1024 + 1;
      assert events == events[..i] + [events[i]] + events[i + 1..];
      var pieces := LongEventIsLost(json, events[..i], events[i], events[i + 1..]);
      assert |Reading(json, "", pieces)| < |events|;
    }
  }
}
