/** Cutting an XML text into tokens, as the expression of frontend/gpx-import.js does, and printing tokens. */
module XmlLexer {
  import opened Common
  import opened XmlText
  import opened XmlTree

  predicate NotTag(c: char) {
    c != '<'
  }

  predicate NameChar(c: char) {
    !JsSpace(c) && c != '/' && c != '>' && c != '!' && c != '?'
  }

  predicate AttributeChar(c: char) {
    !JsSpace(c) && c != '=' && c != '/' && c != '>'
  }

  /** Where a text first occurs. */
  function Find(s: string, text: string): (r: Option<nat>)
    ensures r.Some? ==> r.value + |text| <= |s|
  {
    if text <= s then Some(0)
    else if s == "" then None
    else match Find(s[1..], text) case None => None case Some(k) => Some(k + 1)
  }

  /** The length of a text from `open` to the first `close` behind it. */
  function Enclosed(s: string, open: string, close: string): (r: Option<nat>)
    requires open != ""
    ensures r.Some? ==> 0 < |open| <= r.value - |close| && r.value <= |s|
  {
    if !(open <= s) then None
    else match Find(s[|open|..], close) case None => None case Some(k) => Some(|open| + k + |close|)
  }

  datatype Cut<T> = Cut(value: T, length: nat)

  /** A value in double or single quotes. */
  function Quoted(s: string): (r: Option<Cut<string>>)
    ensures r.Some? ==> 0 < r.value.length <= |s|
  {
    if s == "" || (s[0] != '"' && s[0] != '\'') then None
    else
      var v := if s[0] == '"' then RunWhile(s[1..], NotDouble) else RunWhile(s[1..], NotSingle);
      if 1 + v >= |s| then None else Some(Cut(s[1..][..v], v + 2))
  }

  predicate NotDouble(c: char) {
    c != '"'
  }

  predicate NotSingle(c: char) {
    c != '\''
  }

  /** Spaces, a name, an equals sign perhaps between spaces, and a value in quotes. */
  function Attribute(s: string): (r: Option<Cut<(string, string)>>)
    ensures r.Some? ==> 0 < r.value.length <= |s|
  {
    var i := RunWhile(s, JsSpace);
    var j := i + RunWhile(s[i..], AttributeChar);
    var k := j + RunWhile(s[j..], JsSpace);
    if i == 0 || j == i || k >= |s| || s[k] != '=' then None
    else
      var q := k + 1 + RunWhile(s[k + 1..], JsSpace);
      match Quoted(s[q..])
      case None => None
      case Some(value) => Some(Cut((LocalName(s[i..j]), Decode(value.value)), q + value.length))
  }

  function Attributes(s: string): (r: Cut<seq<(string, string)>>)
    ensures r.length <= |s|
    decreases |s|
  {
    match Attribute(s)
    case None => Cut([], 0)
    case Some(first) =>
      var more := Attributes(s[first.length..]);
      Cut([first.value] + more.value, first.length + more.length)
  }

  /** A tag: opening, closing, or both in one. A closing tag may carry attributes, which are dropped. */
  function Tag(s: string): (r: Option<Cut<seq<Token>>>)
    requires s != ""
    ensures r.Some? ==> 0 < r.value.length <= |s|
  {
    var closing := |s| > 1 && s[1] == '/';
    var i := if closing then 2 else 1;
    var j := i + RunWhile(s[i..], NameChar);
    var attrs := Attributes(s[j..]);
    var k := j + attrs.length;
    var l := k + RunWhile(s[k..], JsSpace);
    var empty := l < |s| && s[l] == '/';
    var e := if empty then l + 1 else l;
    if j == i || e >= |s| || s[e] != '>' then None
    else
      var name := LocalName(s[i..j]);
      var tokens := if closing then [Close(name)]
                    else [Open(name, attrs.value)] + (if empty then [Close(name)] else []);
      Some(Cut(tokens, e + 1))
  }

  const COMMENT := "<!--"
  const CDATA := "<![CDATA["
  const INSTRUCTION := "<?"

  /** The next token, or what is passed over: a comment, an instruction, a stray `<`. */
  function Next(s: string): (r: Cut<seq<Token>>)
    requires s != ""
    ensures 0 < r.length <= |s|
  {
    var comment, data, instruction := Enclosed(s, COMMENT, "-->"), Enclosed(s, CDATA, "]]>"), Enclosed(s, INSTRUCTION, "?>");
    if s[0] != '<' then
      var n := RunWhile(s, NotTag);
      Cut([Words(Decode(s[..n]))], n)
    else if comment.Some? then Cut([], comment.value)
    else if data.Some? then Cut([Words(s[9..data.value - 3])], data.value)
    else if instruction.Some? then Cut([], instruction.value)
    else match Tag(s)
      case Some(tag) => tag
      case None => Cut([], 1)
  }

  function Lex(s: string): seq<Token>
    decreases |s|
  {
    if s == "" then []
    else
      var next := Next(s);
      next.value + Lex(s[next.length..])
  }

  // ---------------------------------------------------------------- printing

  function PrintAttributes(attrs: seq<(string, string)>): string {
    if attrs == [] then ""
    else " " + attrs[0].0 + "=\"" + XmlEscape(attrs[0].1) + "\"" + PrintAttributes(attrs[1..])
  }

  function PrintItem(item: Item): string
    decreases item, 1
  {
    match item
    case Text(text) => XmlEscape(text)
    case Child(Element(name, attrs, items)) =>
      "<" + name + PrintAttributes(attrs) + ">" + PrintItems(items) + "</" + name + ">"
  }

  function PrintItems(items: seq<Item>): string
    decreases items, 0
  {
    if items == [] then ""
    else PrintItems(items[..|items| - 1]) + PrintItem(items[|items| - 1])
  }

  ghost predicate PlainAttributes(attrs: seq<(string, string)>) {
    forall i :: 0 <= i < |attrs| ==> PlainName(attrs[i].0)
  }

  /** Names are plain, texts are not empty, and no two texts are side by side (they would be read as one). */
  ghost predicate Printable(items: seq<Item>)
    decreases items, 0
  {
    && (forall i :: 0 <= i < |items| ==> PrintableItem(items[i]))
    && (forall i :: 0 <= i < |items| - 1 ==> items[i].Child? || items[i + 1].Child?)
  }

  ghost predicate PrintableItem(item: Item)
    decreases item, 1
  {
    match item
    case Text(text) => text != ""
    case Child(Element(name, attrs, items)) => PlainName(name) && PlainAttributes(attrs) && Printable(items)
  }

  // ---------------------------------------------------------------- reading what was printed

  lemma {:induction false} RunOver(a: string, rest: string, p: char -> bool)
    requires forall i :: 0 <= i < |a| ==> p(a[i])
    requires rest == "" || !p(rest[0])
    ensures RunWhile(a + rest, p) == |a|
  {
    if a == "" {
      assert a + rest == rest;
    } else {
      assert (a + rest)[1..] == a[1..] + rest;
      RunOver(a[1..], rest, p);
    }
  }

  lemma LexStep(s: string, tokens: seq<Token>, n: nat, rest: string)
    requires s != "" && n <= |s| && Next(s) == Cut(tokens, n) && s[n..] == rest
    ensures Lex(s) == tokens + Lex(rest)
  {
    hide Next;
  }

  lemma LexText(text: string, rest: string)
    requires text != "" && (rest == "" || rest[0] == '<')
    ensures Lex(XmlEscape(text) + rest) == [Words(text)] + Lex(rest)
  {
    hide XmlEscape, Decode, Lex, Enclosed, Tag;
    var raw := XmlEscape(text);
    var s := raw + rest;
    EscapedIsSafe(text);
    RunOver(raw, rest, NotTag);
    DecodeEscape(text);
    assert s[..|raw|] == raw;
    LexStep(s, [Words(text)], |raw|, rest);
  }

  /** After `<` and a letter there is no comment, data or instruction. */
  lemma NextIsTag(s: string, tag: Cut<seq<Token>>)
    requires |s| > 1 && s[0] == '<' && s[1] != '!' && s[1] != '?' && Tag(s) == Some(tag)
    ensures Next(s) == tag
  {
    hide Tag, Decode, Find;
    assert !(COMMENT <= s) && !(CDATA <= s) && !(INSTRUCTION <= s);
  }

  lemma NameRuns(name: string, rest: string)
    requires PlainName(name) && rest != ""
    ensures !NameChar(rest[0]) ==> RunWhile(name + rest, NameChar) == |name|
    ensures !AttributeChar(rest[0]) ==> RunWhile(name + rest, AttributeChar) == |name|
  {
    hide RunWhile;
    if !NameChar(rest[0]) {
      RunOver(name, rest, NameChar);
    }
    if !AttributeChar(rest[0]) {
      RunOver(name, rest, AttributeChar);
    }
  }

  lemma NoRun(rest: string, p: char -> bool)
    requires rest == "" || !p(rest[0])
    ensures RunWhile(rest, p) == 0
  {
  }

  lemma LexClose(name: string, rest: string)
    requires PlainName(name)
    ensures Lex("</" + name + ">" + rest) == [Close(name)] + Lex(rest)
  {
    hide Lex, Next, Tag, LocalName, RunWhile, Attributes;
    var s := "</" + name + ">" + rest;
    var j := 2 + |name|;
    CloseSlices(name, rest);
    NameRuns(name, ">" + rest);
    NoAttributes(">" + rest);
    NoRun(">" + rest, JsSpace);
    LocalNameOfPlain(name);
    CloseParts(s, j);
    NextIsTag(s, Cut([Close(name)], j + 1));
    LexStep(s, [Close(name)], j + 1, rest);
  }

  lemma CloseSlices(name: string, rest: string)
    ensures var s := "</" + name + ">" + rest;
            var j := 2 + |name|;
            && |s| > j && s[0] == '<' && s[1] == '/' && s[2..] == name + (">" + rest) && s[2..j] == name
            && s[j..] == ">" + rest && s[j] == '>' && s[j + 1..] == rest
  {
  }

  lemma CloseParts(s: string, j: nat)
    requires 2 < j < |s| && s[1] == '/' && s[j] == '>'
    requires RunWhile(s[2..], NameChar) == j - 2 && Attributes(s[j..]) == Cut([], 0) && RunWhile(s[j..], JsSpace) == 0
    ensures Tag(s) == Some(Cut([Close(LocalName(s[2..j]))], j + 1))
  {
    hide RunWhile, LocalName, Attributes;
  }

  lemma NoAttributes(rest: string)
    requires rest != "" && rest[0] == '>'
    ensures Attributes(rest) == Cut([], 0)
  {
    NoRun(rest, JsSpace);
  }

  lemma AttributeRead(name: string, value: string, rest: string)
    requires PlainName(name)
    ensures Attribute(" " + name + "=\"" + XmlEscape(value) + "\"" + rest)
         == Some(Cut((name, value), |name| + |XmlEscape(value)| + 4))
  {
    hide RunWhile, LocalName, Decode, XmlEscape, Attribute;
    var raw := XmlEscape(value);
    var quoted := raw + ("\"" + rest);
    var s := " " + name + "=\"" + raw + "\"" + rest;
    EscapedIsSafe(value);
    LocalNameOfPlain(name);
    DecodeEscape(value);
    assert s == " " + (name + ("=" + ("\"" + quoted)));
    AttributeIs(name, raw, quoted, "\"" + rest);
  }

  lemma AttributeIs(name: string, raw: string, quoted: string, rest: string)
    requires PlainName(name) && '"' !in raw && quoted == raw + rest && rest != "" && rest[0] == '"'
    ensures Attribute(" " + (name + ("=" + ("\"" + quoted)))) == Some(Cut((LocalName(name), Decode(raw)), |name| + |raw| + 4))
  {
    hide *;
    var value := "=" + ("\"" + quoted);
    AttributeRuns(name, "\"" + quoted);
    QuotedIs(raw, quoted, rest);
    AttributeSlices(name, "\"" + quoted);
    AttributeParts(" " + (name + value), 1, 1 + |name|, Cut(raw, |raw| + 2));
  }

  lemma AttributeRuns(name: string, quoted: string)
    requires PlainName(name) && quoted != "" && quoted[0] == '"'
    ensures var value := "=" + quoted;
            && |name| > 0 && RunWhile(" " + (name + value), JsSpace) == 1 && RunWhile(name + value, AttributeChar) == |name|
            && RunWhile(value, JsSpace) == 0 && RunWhile(quoted, JsSpace) == 0
  {
    hide RunWhile;
    var value := "=" + quoted;
    assert (name + value)[0] == name[0];
    NameRuns(name, value);
    hide AttributeChar, NameChar, WhiteSpace, JsSpace;
    InkIsNoSpace(name[0]);
    InkIsNoSpace('=');
    InkIsNoSpace('"');
    OneSpace(name + value);
    NoRun(value, JsSpace);
    NoRun(quoted, JsSpace);
  }

  lemma InkIsNoSpace(c: char)
    requires 'a' <= c <= 'z' || c == '_' || c == '=' || c == '"'
    ensures !JsSpace(c)
  {
  }

  lemma OneSpace(rest: string)
    requires rest != "" && !JsSpace(rest[0])
    ensures RunWhile(" " + rest, JsSpace) == 1
  {
    hide WhiteSpace;
    assert (" " + rest)[1..] == rest;
    NoRun(rest, JsSpace);
    assert JsSpace(' ') by {
      SpaceIsSpace();
    }
  }

  lemma SpaceIsSpace()
    ensures JsSpace(' ')
  {
  }

  lemma AttributeSlices(name: string, quoted: string)
    ensures var value := "=" + quoted;
            var s, j := " " + (name + value), 1 + |name|;
            && s[1..] == name + value && s[j..] == value && s[1..j] == name && s[j] == '=' && s[j + 1..] == quoted
            && |s| > j
  {
  }

  lemma AttributeParts(s: string, i: nat, j: nat, value: Cut<string>)
    requires 0 < i < j < |s| && s[j] == '='
    requires RunWhile(s, JsSpace) == i && RunWhile(s[i..], AttributeChar) == j - i
    requires RunWhile(s[j..], JsSpace) == 0 && RunWhile(s[j + 1..], JsSpace) == 0
    requires Quoted(s[j + 1..]) == Some(value)
    ensures Attribute(s) == Some(Cut((LocalName(s[i..j]), Decode(value.value)), j + 1 + value.length))
  {
    hide RunWhile, LocalName, Decode, Quoted;
  }

  lemma QuotedIs(raw: string, quoted: string, rest: string)
    requires '"' !in raw && quoted == raw + rest && rest != "" && rest[0] == '"'
    ensures Quoted("\"" + quoted) == Some(Cut(raw, |raw| + 2))
  {
    hide RunWhile;
    var s := "\"" + quoted;
    RunOver(raw, rest, NotDouble);
    assert s[1..] == quoted && quoted[..|raw|] == raw;
  }

  lemma {:induction false} AttributesRead(attrs: seq<(string, string)>, rest: string)
    requires PlainAttributes(attrs) && rest != "" && rest[0] == '>'
    ensures Attributes(PrintAttributes(attrs) + rest) == Cut(attrs, |PrintAttributes(attrs)|)
  {
    hide Attribute, Attributes, XmlEscape, PlainName;
    if attrs == [] {
      assert PrintAttributes(attrs) + rest == rest;
      NoAttributes(rest);
    } else {
      FirstIsRead(attrs, rest);
      AttributesRead(attrs[1..], rest);
      var n := |attrs[0].0| + |XmlEscape(attrs[0].1)| + 4;
      hide PrintAttributes;
      AttributesStep(PrintAttributes(attrs) + rest, attrs, n, PrintAttributes(attrs[1..]) + rest);
    }
  }

  /** The first attribute of a print, and what is left to read. */
  lemma FirstIsRead(attrs: seq<(string, string)>, rest: string)
    requires attrs != [] && PlainName(attrs[0].0)
    ensures var n := |attrs[0].0| + |XmlEscape(attrs[0].1)| + 4;
            && Attribute(PrintAttributes(attrs) + rest) == Some(Cut(attrs[0], n))
            && |PrintAttributes(attrs)| == n + |PrintAttributes(attrs[1..])|
            && (PrintAttributes(attrs) + rest)[n..] == PrintAttributes(attrs[1..]) + rest
  {
    hide Attribute, XmlEscape, PlainName;
    var (name, value) := attrs[0];
    PrintedThenRest(" " + name + "=\"" + XmlEscape(value) + "\"", PrintAttributes(attrs[1..]), rest);
    AttributeRead(name, value, PrintAttributes(attrs[1..]) + rest);
  }

  lemma PrintedThenRest(first: string, later: string, rest: string)
    ensures (first + later) + rest == first + (later + rest)
    ensures ((first + later) + rest)[|first|..] == later + rest
  {
  }

  lemma AttributesStep(s: string, attrs: seq<(string, string)>, n: nat, more: string)
    requires attrs != [] && Attribute(s) == Some(Cut(attrs[0], n)) && n <= |s| && s[n..] == more
    requires Attributes(more).value == attrs[1..]
    ensures Attributes(s) == Cut(attrs, n + Attributes(more).length)
  {
    hide Attribute;
    assert [attrs[0]] + attrs[1..] == attrs;
  }

  lemma LexOpen(name: string, attrs: seq<(string, string)>, rest: string)
    requires PlainName(name) && PlainAttributes(attrs)
    ensures Lex("<" + name + PrintAttributes(attrs) + ">" + rest) == [Open(name, attrs)] + Lex(rest)
  {
    hide Lex, Next, Tag, LocalName, Attributes, PrintAttributes, RunWhile;
    var printed, tail := PrintAttributes(attrs), ">" + rest;
    var s := "<" + name + printed + ">" + rest;
    var j := 1 + |name|;
    var k := j + |printed|;
    PrintedStarts(attrs, tail);
    OpenSlices(name, printed, rest);
    NameRuns(name, printed + tail);
    AttributesRead(attrs, tail);
    NoRun(tail, JsSpace);
    TagParts(s, j, k, attrs);
    LocalNameOfPlain(name);
    NextIsTag(s, Cut([Open(name, attrs)], k + 1));
    LexStep(s, [Open(name, attrs)], k + 1, rest);
  }

  lemma OpenSlices(name: string, printed: string, rest: string)
    requires name != ""
    ensures var s := "<" + name + printed + ">" + rest;
            var j := 1 + |name|;
            var k := j + |printed|;
            && |s| > k && s[0] == '<' && s[1] == name[0] && s[1..] == name + (printed + (">" + rest)) && s[1..j] == name
            && s[j..] == printed + (">" + rest) && s[k..] == ">" + rest && s[k] == '>' && s[k + 1..] == rest
  {
  }

  lemma TagParts(s: string, j: nat, k: nat, attrs: seq<(string, string)>)
    requires 1 < j <= k < |s| && s[1] != '/' && s[k] == '>'
    requires RunWhile(s[1..], NameChar) == j - 1 && Attributes(s[j..]) == Cut(attrs, k - j) && RunWhile(s[k..], JsSpace) == 0
    ensures Tag(s) == Some(Cut([Open(LocalName(s[1..j]), attrs)], k + 1))
  {
    hide RunWhile, LocalName, Attributes;
    assert [Open(LocalName(s[1..j]), attrs)] + [] == [Open(LocalName(s[1..j]), attrs)];
  }

  lemma PrintedStarts(attrs: seq<(string, string)>, tail: string)
    requires tail != "" && tail[0] == '>'
    ensures var s := PrintAttributes(attrs) + tail; !NameChar(s[0])
  {
  }

  predicate EndsInText(items: seq<Item>) {
    items != [] && items[|items| - 1].Text?
  }

  /** Cutting a printed list of items into tokens gives the tokens of the items. */
  lemma {:induction false} LexItems(items: seq<Item>, rest: string)
    requires Printable(items) && (EndsInText(items) ==> rest == "" || rest[0] == '<')
    ensures Lex(PrintItems(items) + rest) == ItemsTokens(items) + Lex(rest)
    decreases items, 0
  {
    if items == [] {
      assert PrintItems(items) + rest == rest;
      assert ItemsTokens(items) + Lex(rest) == Lex(rest);
    } else {
      hide Lex, XmlEscape;
      var before, last := items[..|items| - 1], items[|items| - 1];
      assert forall i :: 0 <= i < |before| ==> before[i] == items[i];
      var tail := PrintItem(last) + rest;
      LexItem(last, rest);
      if EndsInText(before) {
        assert last.Child?;
      }
      LexItems(before, tail);
      ConcatAssociates(PrintItems(before), PrintItem(last), rest);
      ConcatAssociates(ItemsTokens(before), ItemTokens(last), Lex(rest));
    }
  }

  lemma {:induction false} LexItem(item: Item, rest: string)
    requires PrintableItem(item) && (item.Text? ==> rest == "" || rest[0] == '<')
    ensures Lex(PrintItem(item) + rest) == ItemTokens(item) + Lex(rest)
    decreases item, 1
  {
    hide Lex, XmlEscape, PrintAttributes;
    match item
    case Text(text) => LexText(text, rest);
    case Child(Element(name, attrs, items)) =>
      var close := "</" + name + ">" + rest;
      var body := PrintItems(items) + close;
      LexOpen(name, attrs, body);
      LexItems(items, close);
      LexClose(name, rest);
      assert PrintItem(item) + rest == "<" + name + PrintAttributes(attrs) + ">" + body;
      ConcatThree([Open(name, attrs)], ItemsTokens(items), [Close(name)], Lex(rest));
  }

  /** Reading a printed document gives the document back, for every printable tree. */
  lemma ReadPrinted(items: seq<Item>)
    requires Printable(items)
    ensures Build(Lex(PrintItems(items))) == Built(items)
  {
    hide *;
    LexItems(items, "");
    assert PrintItems(items) + "" == PrintItems(items);
    LexNothing();
    assert ItemsTokens(items) + [] == ItemsTokens(items);
    BuildInvertsPrinting(ItemsTokens(items), items);
  }

  lemma LexNothing()
    ensures Lex("") == []
  {
  }
}
