/**
 Forms of XML that frontend/gpx-import.js reads though the page never writes them: references by number,
 single quotes, comments, sections of plain text and empty elements.
 */
module XmlForms {
  import opened Common
  import opened XmlText
  import opened XmlTree
  import opened XmlLexer

  // ---------------------------------------------------------------- references by number

  /** The digit of a value, with letters from `ten` on. */
  function DigitOf(d: nat, ten: char): char
    requires d < 16 && (ten == 'a' || ten == 'A')
  {
    if d < 10 then '0' + d as char else ten + (d - 10) as char
  }

  function Shown(code: nat, base: nat, ten: char): (s: string)
    requires (base == 10 || base == 16) && (ten == 'a' || ten == 'A')
    ensures s != ""
  {
    if code < base then [DigitOf(code, ten)] else Shown(code / base, base, ten) + [DigitOf(code % base, ten)]
  }

  lemma DigitIsRead(d: nat, ten: char)
    requires d < 16 && (ten == 'a' || ten == 'A')
    ensures HexDigit(DigitOf(d, ten)) && DigitValue(DigitOf(d, ten)) == d
    ensures d < 10 ==> Digit(DigitOf(d, ten))
  {
  }

  lemma {:induction false} ShownIsNumber(code: nat, base: nat, ten: char)
    requires (base == 10 || base == 16) && (ten == 'a' || ten == 'A')
    ensures var s := Shown(code, base, ten);
            && (forall i :: 0 <= i < |s| ==> HexDigit(s[i]) && (base == 10 ==> Digit(s[i])))
            && Number(s, base) == code
  {
    hide HexDigit, Digit, DigitOf, DigitValue, Number;
    DigitIsRead(code % base, ten);
    if code < base {
      DigitIsRead(code, ten);
      NoNumber(base);
      OneMoreDigit("", DigitOf(code, ten), base);
      assert "" + [DigitOf(code, ten)] == [DigitOf(code, ten)];
    } else {
      ShownIsNumber(code / base, base, ten);
      OneMoreDigit(Shown(code / base, base, ten), DigitOf(code % base, ten), base);
      Quotient(code, base);
    }
  }

  lemma NoNumber(base: nat)
    ensures Number("", base) == 0
  {
  }

  lemma OneMoreDigit(digits: string, last: char, base: nat)
    requires HexDigit(last) && forall i :: 0 <= i < |digits| ==> HexDigit(digits[i])
    ensures Number(digits + [last], base) == Number(digits, base) * base + DigitValue(last)
  {
    hide HexDigit, DigitValue;
    assert (digits + [last])[..|digits|] == digits;
  }

  lemma Quotient(code: nat, base: nat)
    requires base == 10 || base == 16
    ensures (code / base) * base + code % base == code
  {
  }

  lemma DecodeReference(s: string, text: string, n: nat, rest: string)
    requires Reference(s) == Some((text, n)) && n <= |s| && s[n..] == rest
    ensures Decode("&" + s) == text + Decode(rest)
  {
    hide Reference;
    assert ("&" + s)[1..] == s;
    assert ("&" + s)[1 + n..] == rest;
  }

  lemma DecimalReference(digits: string, rest: string)
    requires digits != "" && forall i :: 0 <= i < |digits| ==> HexDigit(digits[i]) && Digit(digits[i])
    ensures Reference("#" + (digits + (";" + rest))) == Some((CharOf(Number(digits, 10)), |digits| + 2))
  {
    hide HexDigit, Digit, Number, CharOf, RunWhile, Named;
    var s := "#" + (digits + (";" + rest));
    assert s[1..] == digits + (";" + rest) && s[1..][..|digits|] == digits;
    assert !Digit(';') by { SignsAreNoDigits(); }
    RunOver(digits, ";" + rest, Digit);
  }

  lemma HexReference(x: char, digits: string, rest: string)
    requires (x == 'x' || x == 'X') && digits != "" && forall i :: 0 <= i < |digits| ==> HexDigit(digits[i])
    ensures Reference("#" + ([x] + (digits + (";" + rest)))) == Some((CharOf(Number(digits, 16)), |digits| + 3))
  {
    hide *;
    var s := "#" + ([x] + (digits + (";" + rest)));
    SignsAreNoDigits();
    HexSlices(x, digits, rest);
    NoRun(s[1..], Digit);
    RunOver(digits, ";" + rest, HexDigit);
    HexParts(s, digits);
  }

  lemma HexSlices(x: char, digits: string, rest: string)
    ensures var s := "#" + ([x] + (digits + (";" + rest)));
            && |s| > 2 + |digits| && s[0] == '#' && s[1] == x && s[1..] != "" && s[1..][0] == x
            && s[2..] == digits + (";" + rest) && s[2..][..|digits|] == digits && s[2 + |digits|] == ';'
  {
  }

  lemma HexParts(s: string, digits: string)
    requires digits != "" && |s| > 2 + |digits| && s[0] == '#' && (s[1] == 'x' || s[1] == 'X')
    requires RunWhile(s[1..], Digit) == 0 && RunWhile(s[2..], HexDigit) == |digits|
    requires s[2..][..|digits|] == digits && s[2 + |digits|] == ';'
    requires forall i :: 0 <= i < |digits| ==> HexDigit(digits[i])
    ensures Reference(s) == Some((CharOf(Number(digits, 16)), |digits| + 3))
  {
    hide RunWhile, Digit, HexDigit, CharOf, Number, Named;
  }

  lemma SignsAreNoDigits()
    ensures !Digit(';') && !HexDigit(';') && !Digit('x') && !Digit('X')
  {
  }

  /** Main result: a character's code, in decimal or hexadecimal digits of either case, is read as the character. */
  lemma ReferenceIsRead(code: nat, x: char, ten: char, rest: string)
    requires !(0xd800 <= code < 0xe000) && (x == 'x' || x == 'X') && (ten == 'a' || ten == 'A')
    ensures var text := if 0 < code <= 0x10ffff then [code as char] else "";
            && Decode("&" + ("#" + (Shown(code, 10, ten) + (";" + rest)))) == text + Decode(rest)
            && Decode("&" + ("#" + ([x] + (Shown(code, 16, ten) + (";" + rest))))) == text + Decode(rest)
  {
    hide HexDigit, Digit, Number, Decode, Reference, Shown;
    var text := CharOf(code);
    var decimal, hex := Shown(code, 10, ten), Shown(code, 16, ten);
    ShownIsNumber(code, 10, ten);
    DecimalReference(decimal, rest);
    DecodeReference("#" + (decimal + (";" + rest)), text, |decimal| + 2, rest);
    ShownIsNumber(code, 16, ten);
    HexReference(x, hex, rest);
    DecodeReference("#" + ([x] + (hex + (";" + rest))), text, |hex| + 3, rest);
  }

  /** A mark, digits of its kind and a semicolon, and what comes after. */
  predicate ByCode(s: string, mark: string, digits: string, rest: string) {
    && s == mark + (digits + (";" + rest)) && digits != ""
    && (if mark == "#" then forall i :: 0 <= i < |digits| ==> Digit(digits[i])
        else (mark == "#x" || mark == "#X") && forall i :: 0 <= i < |digits| ==> HexDigit(digits[i]))
  }

  lemma CodeIsReference(s: string, mark: string, digits: string, rest: string)
    requires ByCode(s, mark, digits, rest)
    ensures Reference(s).Some?
  {
    if mark == "#" {
      DecimalReference(digits, rest);
    } else {
      hide Digit, HexDigit, Reference;
      var x := mark[1];
      assert mark == "#" + [x] && s == "#" + ([x] + (digits + (";" + rest)));
      HexReference(x, digits, rest);
    }
  }

  lemma ReferenceIsCode(s: string) returns (mark: string, digits: string, rest: string)
    requires |s| >= 2 && s[0] == '#' && Reference(s).Some?
    ensures ByCode(s, mark, digits, rest)
  {
    hide Digit, HexDigit, Number, CharOf, Named, RunWhile;
    var decimal, hex := RunWhile(s[1..], Digit), RunWhile(s[2..], HexDigit);
    RunIsInClass(s[1..], Digit);
    RunIsInClass(s[2..], HexDigit);
    if decimal > 0 && 1 + decimal < |s| && s[1 + decimal] == ';' {
      mark, digits, rest := "#", s[1..][..decimal], s[2 + decimal..];
      assert s == "#" + (s[1..][..decimal] + (";" + s[2 + decimal..]));
    } else {
      mark, digits, rest := s[..2], s[2..][..hex], s[3 + hex..];
      assert s == s[..2] + (s[2..][..hex] + (";" + s[3 + hex..]));
      assert mark == ['#', s[1]];
    }
  }

  lemma NamesHaveNoMark(s: string)
    ensures Named(s).Some? ==> s != "" && s[0] != '#'
  {
    hide Lower;
    LowerOfNames();
    if |s| >= 3 {
      LowerAt(s[..3], 0);
    }
    if |s| >= 4 {
      LowerAt(s[..4], 0);
    }
    if |s| >= 5 {
      LowerAt(s[..5], 0);
    }
  }

  /** What stands behind an ampersand is a reference exactly when it is one of the five names or a code in digits. */
  lemma ReferenceIff(s: string)
    ensures Reference(s).Some? <==> Named(s).Some? || exists mark, digits, rest :: ByCode(s, mark, digits, rest)
  {
    NamesHaveNoMark(s);
    hide Named, ByCode, Digit, HexDigit, Number, CharOf, RunWhile;
    if |s| >= 2 && s[0] == '#' && Reference(s).Some? {
      var mark, digits, rest := ReferenceIsCode(s);
    }
    if mark, digits, rest :| ByCode(s, mark, digits, rest) {
      CodeIsReference(s, mark, digits, rest);
    }
  }

  // ---------------------------------------------------------------- single quotes

  lemma SingleQuotesAreQuotes(raw: string, quoted: string, rest: string)
    requires '\'' !in raw && quoted == raw + rest && rest != "" && rest[0] == '\''
    ensures Quoted("'" + quoted) == Some(Cut(raw, |raw| + 2))
  {
    hide RunWhile;
    var s := "'" + quoted;
    RunOver(raw, rest, NotSingle);
    assert s[1..] == quoted && quoted[..|raw|] == raw;
  }

  lemma SingleQuoted(name: string, raw: string, quoted: string, rest: string)
    requires PlainName(name) && '\'' !in raw && quoted == raw + rest && rest != "" && rest[0] == '\''
    ensures Attribute(" " + (name + ("=" + ("'" + quoted)))) == Some(Cut((LocalName(name), Decode(raw)), |name| + |raw| + 4))
  {
    hide *;
    var value := "=" + ("'" + quoted);
    QuoteIsNoSpace();
    RunsBeforeQuote(name, "'" + quoted);
    SingleQuotesAreQuotes(raw, quoted, rest);
    AttributeSlices(name, "'" + quoted);
    AttributeParts(" " + (name + value), 1, 1 + |name|, Cut(raw, |raw| + 2));
  }

  /** An attribute in single quotes is read like one in double quotes. */
  lemma SingleQuotedIsRead(name: string, raw: string, rest: string)
    requires PlainName(name) && '\'' !in raw && '"' !in raw
    ensures var attribute := Some(Cut((name, Decode(raw)), |name| + |raw| + 4));
            && Attribute(" " + (name + ("=" + ("'" + (raw + ("'" + rest)))))) == attribute
            && Attribute(" " + (name + ("=" + ("\"" + (raw + ("\"" + rest)))))) == attribute
  {
    LocalNameOfPlain(name);
    hide *;
    SingleQuoted(name, raw, raw + ("'" + rest), "'" + rest);
    AttributeIs(name, raw, raw + ("\"" + rest), "\"" + rest);
  }

  lemma QuoteIsNoSpace()
    ensures !JsSpace('\'')
  {
  }

  lemma RunsBeforeQuote(name: string, quoted: string)
    requires PlainName(name) && quoted != "" && quoted[0] == '\'' && !JsSpace('\'')
    ensures var value := "=" + quoted;
            && |name| > 0 && RunWhile(" " + (name + value), JsSpace) == 1 && RunWhile(name + value, AttributeChar) == |name|
            && RunWhile(value, JsSpace) == 0 && RunWhile(quoted, JsSpace) == 0
  {
    hide RunWhile;
    var value := "=" + quoted;
    assert (name + value)[0] == name[0];
    NameRuns(name, value);
    hide AttributeChar, NameChar, WhiteSpace, JsSpace;
    InkIsNoSpace(name[0]);
    InkIsNoSpace('=');
    OneSpace(name + value);
    NoRun(value, JsSpace);
    NoRun(quoted, JsSpace);
  }

  // ---------------------------------------------------------------- comments and plain text

  /** The mark ends here first. */
  predicate EndsFirst(body: string, close: string, rest: string) {
    forall i :: 0 <= i < |body| ==> !(close <= (body + close + rest)[i..])
  }

  lemma {:induction false} FoundFirst(body: string, close: string, rest: string)
    requires EndsFirst(body, close, rest)
    ensures Find(body + close + rest, close) == Some(|body|)
  {
    var s := body + close + rest;
    if body == "" {
      assert s[..|close|] == close;
    } else {
      assert s[0..] == s;
      assert s[1..] == body[1..] + close + rest;
      assert EndsFirst(body[1..], close, rest) by {
        forall i | 0 <= i < |body[1..]| ensures !(close <= (body[1..] + close + rest)[i..]) {
          assert (body[1..] + close + rest)[i..] == s[i + 1..];
        }
      }
      FoundFirst(body[1..], close, rest);
    }
  }

  lemma EnclosedIs(open: string, body: string, close: string, rest: string)
    requires open != "" && EndsFirst(body, close, rest)
    ensures Enclosed(open + (body + close + rest), open, close) == Some(|open| + |body| + |close|)
  {
    hide Find, EndsFirst;
    var s := open + (body + close + rest);
    assert s[..|open|] == open && s[|open|..] == body + close + rest;
    FoundFirst(body, close, rest);
  }

  /** A comment is passed over, whatever is in it. */
  lemma CommentIsPassed(body: string, rest: string)
    requires EndsFirst(body, "-->", rest)
    ensures Lex(COMMENT + (body + "-->" + rest)) == Lex(rest)
  {
    var s := COMMENT + (body + "-->" + rest);
    var n := |COMMENT| + |body| + 3;
    EnclosedIs(COMMENT, body, "-->", rest);
    assert s[0] == '<';
    hide Lex, Enclosed, Find, EndsFirst, Tag, Decode;
    assert Next(s) == Cut([], n);
    assert s[n..] == rest;
    LexStep(s, [], n, rest);
    assert [] + Lex(rest) == Lex(rest);
  }

  /** A section of plain text is text as it stands: nothing in it is a tag or a reference. */
  lemma SectionIsText(body: string, rest: string)
    requires EndsFirst(body, "]]>", rest)
    ensures Lex(CDATA + (body + "]]>" + rest)) == [Words(body)] + Lex(rest)
  {
    var s := CDATA + (body + "]]>" + rest);
    var n := 9 + |body| + 3;
    EnclosedIs(CDATA, body, "]]>", rest);
    assert s[0] == '<' && s[2] == '[' && COMMENT[2] == '-';
    assert !(COMMENT <= s);
    hide Lex, Find, EndsFirst, Tag, Decode;
    assert s[9..n - 3] == body && s[n..] == rest;
    assert Next(s) == Cut([Words(body)], n);
    LexStep(s, [Words(body)], n, rest);
  }
}
