/** XML's escapes and small text functions, as frontend/export.js writes and frontend/gpx-import.js reads them. */
module XmlText {
  import opened Common

  // ---------------------------------------------------------------- names

  function AfterLastColon(s: string): string {
    if s == "" then ""
    else if ':' in s[1..] then AfterLastColon(s[1..])
    else if s[0] == ':' then s[1..]
    else s
  }

  function LocalName(s: string): string {
    Lower(AfterLastColon(s))
  }

  /** A name as the exporter writes them: lower-case letters and underscores. */
  predicate PlainName(s: string) {
    s != "" && forall i :: 0 <= i < |s| ==> 'a' <= s[i] <= 'z' || s[i] == '_'
  }

  lemma {:induction false} LowerPlain(s: string)
    requires forall i :: 0 <= i < |s| ==> 'a' <= s[i] <= 'z' || s[i] == '_'
    ensures Lower(s) == s
  {
    if s != "" {
      LowerPlain(s[1..]);
    }
  }

  lemma LocalNameOfPlain(s: string)
    requires PlainName(s)
    ensures LocalName(s) == s
  {
    assert ':' !in s;
    assert AfterLastColon(s) == s;
    LowerPlain(s);
  }

  // ---------------------------------------------------------------- escaping

  function Replace(s: string, c: char, with: string): string {
    if s == "" then "" else (if s[0] == c then with else [s[0]]) + Replace(s[1..], c, with)
  }

  function XmlEscape(s: string): string {
    Replace(Replace(Replace(Replace(s, '&', "&amp;"), '<', "&lt;"), '>', "&gt;"), '"', "&quot;")
  }

  function EscapeChar(c: char): string {
    if c == '&' then "&amp;" else if c == '<' then "&lt;" else if c == '>' then "&gt;" else if c == '"' then "&quot;" else [c]
  }

  lemma {:induction false} ReplaceConcat(a: string, b: string, c: char, with: string)
    ensures Replace(a + b, c, with) == Replace(a, c, with) + Replace(b, c, with)
  {
    if a == "" {
      assert a + b == b;
    } else {
      assert (a + b)[1..] == a[1..] + b;
      ReplaceConcat(a[1..], b, c, with);
      ConcatAssociates(if a[0] == c then with else [a[0]], Replace(a[1..], c, with), Replace(b, c, with));
    }
  }

  lemma {:induction false} ReplaceNone(s: string, c: char, with: string)
    requires c !in s
    ensures Replace(s, c, with) == s
  {
    if s != "" {
      ReplaceNone(s[1..], c, with);
    }
  }

  lemma ReplaceOne(c: char, x: char, with: string)
    ensures Replace([c], x, with) == if c == x then with else [c]
  {
    assert [c][1..] == "";
  }

  lemma EscapeOne(c: char)
    ensures XmlEscape([c]) == EscapeChar(c)
  {
    hide Replace;
    ReplaceOne(c, '&', "&amp;");
    ReplaceOne(c, '<', "&lt;");
    ReplaceOne(c, '>', "&gt;");
    ReplaceOne(c, '"', "&quot;");
    if c == '&' {
      ReplaceNone("&amp;", '<', "&lt;");
      ReplaceNone("&amp;", '>', "&gt;");
      ReplaceNone("&amp;", '"', "&quot;");
    } else if c == '<' {
      ReplaceNone("&lt;", '>', "&gt;");
      ReplaceNone("&lt;", '"', "&quot;");
    } else if c == '>' {
      ReplaceNone("&gt;", '"', "&quot;");
    }
  }

  lemma EscapeConcat(a: string, b: string)
    ensures XmlEscape(a + b) == XmlEscape(a) + XmlEscape(b)
  {
    hide Replace;
    ReplaceConcat(a, b, '&', "&amp;");
    var a1, b1 := Replace(a, '&', "&amp;"), Replace(b, '&', "&amp;");
    ReplaceConcat(a1, b1, '<', "&lt;");
    var a2, b2 := Replace(a1, '<', "&lt;"), Replace(b1, '<', "&lt;");
    ReplaceConcat(a2, b2, '>', "&gt;");
    ReplaceConcat(Replace(a2, '>', "&gt;"), Replace(b2, '>', "&gt;"), '"', "&quot;");
  }

  /** Four replacements in a row come to one replacement of every character. */
  lemma EscapeFirst(s: string)
    requires s != ""
    ensures XmlEscape(s) == EscapeChar(s[0]) + XmlEscape(s[1..])
  {
    hide XmlEscape;
    assert s == [s[0]] + s[1..];
    EscapeConcat([s[0]], s[1..]);
    EscapeOne(s[0]);
  }

  lemma EscapeNothing()
    ensures XmlEscape("") == ""
  {
  }

  /** An escaped text has no character that would end a text or an attribute. */
  lemma {:induction false} EscapedIsSafe(s: string)
    ensures '<' !in XmlEscape(s) && '>' !in XmlEscape(s) && '"' !in XmlEscape(s)
    ensures XmlEscape(s) == "" <==> s == ""
  {
    hide XmlEscape;
    if s == "" {
      EscapeNothing();
    } else {
      EscapeFirst(s);
      EscapedIsSafe(s[1..]);
    }
  }

  lemma {:induction false} EscapePlain(s: string)
    requires '&' !in s && '<' !in s && '>' !in s && '"' !in s
    ensures XmlEscape(s) == s
  {
    ReplaceNone(s, '&', "&amp;");
    ReplaceNone(s, '<', "&lt;");
    ReplaceNone(s, '>', "&gt;");
    ReplaceNone(s, '"', "&quot;");
  }

  // ---------------------------------------------------------------- decoding

  function RunWhile(s: string, p: char -> bool): (n: nat)
    ensures n <= |s|
  {
    if s != "" && p(s[0]) then 1 + RunWhile(s[1..], p) else 0
  }

  predicate Digit(c: char) {
    '0' <= c <= '9'
  }

  predicate HexDigit(c: char) {
    Digit(c) || 'a' <= c <= 'f' || 'A' <= c <= 'F'
  }

  function DigitValue(c: char): nat
    requires HexDigit(c)
  {
    if Digit(c) then (c - '0') as nat else (LowerChar(c) - 'a') as nat + 10
  }

  function Number(digits: string, base: nat): nat
    requires forall i :: 0 <= i < |digits| ==> HexDigit(digits[i])
  {
    if digits == "" then 0
    else
      var high := Number(digits[..|digits| - 1], base);
      NatProduct(high, base);
      high * base + DigitValue(digits[|digits| - 1])
  }

  lemma NatProduct(a: nat, b: nat)
    ensures a * b >= 0
  {
  }

  /** The character of a code, nothing for no code; half of a surrogate pair has no character of its own here. */
  function CharOf(code: nat): string {
    if code == 0 || code > 0x10ffff then ""
    else if 0xd800 <= code < 0xe000 then "\U{FFFD}"
    else [code as char]
  }

  function Named(s: string): Option<(string, nat)> {
    if |s| >= 4 && Lower(s[..4]) == "amp;" then Some(("&", 4))
    else if |s| >= 3 && Lower(s[..3]) == "lt;" then Some(("<", 3))
    else if |s| >= 3 && Lower(s[..3]) == "gt;" then Some((">", 3))
    else if |s| >= 5 && Lower(s[..5]) == "quot;" then Some(("\"", 5))
    else if |s| >= 5 && Lower(s[..5]) == "apos;" then Some(("'", 5))
    else None
  }

  lemma {:induction false} RunIsInClass(s: string, p: char -> bool)
    ensures forall i :: 0 <= i < RunWhile(s, p) ==> p(s[i])
  {
    if s != "" && p(s[0]) {
      RunIsInClass(s[1..], p);
    }
  }

  /** What a reference behind an ampersand stands for and how long it is. */
  function Reference(s: string): (r: Option<(string, nat)>)
    ensures r.Some? ==> 0 < r.value.1 <= |s|
  {
    if |s| >= 2 && s[0] == '#' then
      var decimal, hex := RunWhile(s[1..], Digit), RunWhile(s[2..], HexDigit);
      RunIsInClass(s[1..], Digit);
      RunIsInClass(s[2..], HexDigit);
      if decimal > 0 && 1 + decimal < |s| && s[1 + decimal] == ';' then
        Some((CharOf(Number(s[1..][..decimal], 10)), decimal + 2))
      else if (s[1] == 'x' || s[1] == 'X') && hex > 0 && 2 + hex < |s| && s[2 + hex] == ';' then
        Some((CharOf(Number(s[2..][..hex], 16)), hex + 3))
      else None
    else Named(s)
  }

  function Decode(s: string): string
    decreases |s|
  {
    if s == "" then ""
    else if s[0] != '&' then [s[0]] + Decode(s[1..])
    else match Reference(s[1..])
      case None => "&" + Decode(s[1..])
      case Some((text, n)) => text + Decode(s[1 + n..])
  }

  lemma DecodeEscapedChar(c: char, rest: string)
    ensures Decode(EscapeChar(c) + rest) == [c] + Decode(rest)
  {
    hide Decode;
    if c == '&' {
      DecodeNamed("amp;", rest, "&");
      assert "&" + ("amp;" + rest) == "&amp;" + rest;
    } else if c == '<' {
      DecodeNamed("lt;", rest, "<");
      assert "&" + ("lt;" + rest) == "&lt;" + rest;
    } else if c == '>' {
      DecodeNamed("gt;", rest, ">");
      assert "&" + ("gt;" + rest) == "&gt;" + rest;
    } else if c == '"' {
      DecodeNamed("quot;", rest, "\"");
      assert "&" + ("quot;" + rest) == "&quot;" + rest;
    } else {
      DecodePlainChar(c, rest);
    }
  }

  lemma DecodePlainChar(c: char, rest: string)
    requires c != '&'
    ensures Decode([c] + rest) == [c] + Decode(rest)
  {
    assert ([c] + rest)[1..] == rest;
  }

  lemma DecodeNamed(name: string, rest: string, text: string)
    requires (name, text) in [("amp;", "&"), ("lt;", "<"), ("gt;", ">"), ("quot;", "\"")]
    ensures Decode("&" + (name + rest)) == text + Decode(rest)
  {
    hide Number, CharOf, RunWhile, Lower;
    var s := name + rest;
    NamedIs(name, rest, text);
    assert ("&" + s)[1..] == s;
    assert Reference(s) == Some((text, |name|));
    assert ("&" + s)[1 + |name|..] == rest;
  }

  lemma NamedIs(name: string, rest: string, text: string)
    requires (name, text) in [("amp;", "&"), ("lt;", "<"), ("gt;", ">"), ("quot;", "\"")]
    ensures Named(name + rest) == Some((text, |name|)) && (name + rest)[0] != '#'
  {
    var s := name + rest;
    hide Lower;
    assert s[..|name|] == name;
    LowerOfNames();
    if name != "amp;" && |s| >= 4 {
      LowerAt(s[..4], 0);
    }
    if name == "gt;" || name == "quot;" {
      LowerAt(s[..3], 0);
    }
  }

  lemma LowerStep(c: char, rest: string)
    ensures Lower([c] + rest) == [LowerChar(c)] + Lower(rest)
  {
    assert ([c] + rest)[1..] == rest;
  }

  /** Small letters, put in front one by one. */
  lemma LowerOfThree(a: char, b: char, c: char, rest: string)
    requires 'a' <= a <= 'z' && 'a' <= b <= 'z' && 'a' <= c <= 'z' && Lower(rest) == rest
    ensures Lower([a] + ([b] + ([c] + rest))) == [a] + ([b] + ([c] + rest))
  {
    hide Lower;
    LowerStep(c, rest);
    LowerStep(b, [c] + rest);
    LowerStep(a, [b] + ([c] + rest));
  }

  lemma LowerOfNames()
    ensures Lower("amp;") == "amp;" && Lower("lt;") == "lt;" && Lower("gt;") == "gt;" && Lower("quot;") == "quot;"
  {
    hide Lower;
    LowerOfEmpty();
    LowerStep(';', "");
    LowerStep('t', [';']);
    assert [';'] + "" == [';'] && ['t'] + [';'] == "t;";
    LowerOfThree('a', 'm', 'p', [';']);
    LowerOfThree('q', 'u', 'o', "t;");
    LowerStep('l', "t;");
    LowerStep('g', "t;");
    assert ['a'] + (['m'] + (['p'] + [';'])) == "amp;";
    assert ['q'] + (['u'] + (['o'] + "t;")) == "quot;";
    assert ['l'] + "t;" == "lt;" && ['g'] + "t;" == "gt;";
  }

  lemma LowerOfEmpty()
    ensures Lower("") == ""
  {
  }

  lemma LowerAt(s: string, i: nat)
    requires i < |s|
    ensures Lower(s)[i] == LowerChar(s[i])
  {
    if i > 0 {
      LowerAt(s[1..], i - 1);
    }
  }

  /** Reading an escaped text gives the text back, for every text. */
  lemma {:induction false} DecodeEscape(s: string)
    ensures Decode(XmlEscape(s)) == s
  {
    hide XmlEscape, Decode;
    if s == "" {
      EscapeNothing();
      DecodeNothing();
    } else {
      EscapeFirst(s);
      DecodeEscapedChar(s[0], XmlEscape(s[1..]));
      DecodeEscape(s[1..]);
    }
  }

  lemma DecodeNothing()
    ensures Decode("") == ""
  {
  }
}
