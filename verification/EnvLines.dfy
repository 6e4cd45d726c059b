/**
 Which lines of the settings file say something of a key: the two expressions of llm_setup.py, spelled out as
 the parts of a line, and the characters at which Python ends a line.
 */
module EnvLines {
  import opened Common
  import opened EnvFile

  /** A capital letter, then capital letters, digits and underscores. */
  predicate KeyText(key: string) {
    && key != ""
    && 'A' <= key[0] <= 'Z'
    && forall c :: c in key ==> 'A' <= c <= 'Z' || '0' <= c <= '9' || c == '_'
  }

  predicate Parts(line: string, a: string, mark: string, b: string, key: string, rest: string) {
    line == a + mark + b + key + "=" + rest && Blank(a, PySpace) && Blank(b, PySpace)
  }

  lemma {:induction false} KeyLengthIs(key: string, rest: string)
    requires forall i :: 0 <= i < |key| ==> KeyChar(key[i])
    requires rest != "" && rest[0] == '='
    ensures KeyLength(key + rest) == |key|
  {
    if key == "" {
      assert key + rest == rest;
    } else {
      assert (key + rest)[1..] == key[1..] + rest;
      KeyLengthIs(key[1..], rest);
    }
  }

  lemma {:induction false} KeyLengthCuts(s: string)
    ensures forall i :: 0 <= i < KeyLength(s) ==> KeyChar(s[i])
  {
    if s != "" && KeyChar(s[0]) {
      KeyLengthCuts(s[1..]);
    }
  }

  lemma KeyOfParts(s: string, key: string)
    requires KeyOf(s) == Some(key)
    ensures KeyText(key) && |s| > |key| && s == key + "=" + s[|key| + 1..]
  {
    KeyLengthCuts(s);
  }

  lemma KeyOfIs(key: string, rest: string)
    requires KeyText(key)
    ensures KeyOf(key + "=" + rest) == Some(key) && !PySpace(key[0])
    ensures KeyLength(key + "=" + rest) == |key|
  {
    assert key + "=" + rest == key + ("=" + rest);
    forall i | 0 <= i < |key| ensures KeyChar(key[i]) {
      assert key[i] in key;
    }
    KeyLengthIs(key, "=" + rest);
  }

  lemma BlankTwice(a: string, b: string)
    requires Blank(a, PySpace) && Blank(b, PySpace)
    ensures Blank(a + b, PySpace)
  {
  }

  lemma PartsSayKey(line: string, a: string, mark: string, b: string, key: string, rest: string)
    requires Parts(line, a, mark, b, key, rest) && (mark == "" || mark == "#") && KeyText(key)
    ensures EditorKey(line) == Some(key)
  {
    var said := key + "=" + rest;
    KeyOfIs(key, rest);
    hide KeyOf, KeyText, TrimStart, Blank;
    if mark == "#" {
      assert line == a + ("#" + (b + said));
      TrimStartIs(a, "#" + (b + said), PySpace);
      assert ("#" + (b + said))[1..] == b + said;
      TrimStartIs(b, said, PySpace);
    } else {
      assert line == (a + b) + said;
      BlankTwice(a, b);
      TrimStartIs(a + b, said, PySpace);
      assert said[0] == key[0] != '#' by { FirstIsLetter(key); }
    }
  }

  lemma FirstIsLetter(key: string)
    requires KeyText(key)
    ensures key != "" && key[0] != '#'
  {
  }

  lemma StartOf(s: string) returns (a: string)
    ensures s == a + TrimStart(s, PySpace) && Blank(a, PySpace)
  {
    TrimStartCuts(s, PySpace);
    hide TrimStart, Blank;
    a := s[..|s| - |TrimStart(s, PySpace)|];
  }

  lemma PartsAre(line: string, a: string, mark: string, b: string, said: string, key: string)
    requires line == a + (mark + (b + said)) && Blank(a, PySpace) && Blank(b, PySpace) && KeyOf(said) == Some(key)
    ensures |said| > |key| && said == key + "=" + said[|key| + 1..]
    ensures KeyText(key) && Parts(line, a, mark, b, key, said[|key| + 1..])
  {
    KeyOfParts(said, key);
    hide KeyOf, KeyText, Blank;
  }

  lemma SaidInParts(line: string, key: string) returns (a: string, mark: string, b: string, rest: string)
    requires EditorKey(line) == Some(key)
    ensures Parts(line, a, mark, b, key, rest) && (mark == "" || mark == "#") && KeyText(key)
  {
    hide KeyOf, KeyText, Blank, TrimStart, Parts;
    var text := TrimStart(line, PySpace);
    a := StartOf(line);
    var said := text;
    mark, b := "", "";
    if text != "" && text[0] == '#' {
      mark := "#";
      b := StartOf(text[1..]);
      said := TrimStart(text[1..], PySpace);
      assert text == "#" + text[1..];
    } else {
      NothingIsBlank();
      assert text == "" + ("" + text);
    }
    PartsAre(line, a, mark, b, said, key);
    rest := said[|key| + 1..];
  }

  lemma NothingIsBlank()
    ensures Blank("", PySpace)
  {
  }

  /** Main result: the editor takes a line for a key's exactly when it is spaces, a `#` or none, spaces, the key and `=`. */
  lemma LineIsOfKeyIff(line: string, key: string)
    ensures EditorKey(line) == Some(key) <==>
            KeyText(key) && exists a, mark, b, rest :: (mark == "" || mark == "#") && Parts(line, a, mark, b, key, rest)
  {
    hide EditorKey, KeyText, Parts;
    if EditorKey(line) == Some(key) {
      var a, mark, b, rest := SaidInParts(line, key);
    }
    if a, mark, b, rest :| KeyText(key) && (mark == "" || mark == "#") && Parts(line, a, mark, b, key, rest) {
      PartsSayKey(line, a, mark, b, key, rest);
    }
  }

  /** Main result: the reader takes a value from a line exactly when it is spaces, the key, `=` and the value with spaces. */
  lemma LineIsReadIff(line: string, key: string, value: string)
    ensures LiveValue(line, key) == Some(value) <==>
            KeyText(key) && exists a, rest :: Parts(line, a, "", "", key, rest) && Trim(rest, PySpace) == value
  {
    hide KeyText, Trim, LiveValue, Parts;
    if LiveValue(line, key) == Some(value) {
      var a, rest := ReadInParts(line, key, value);
    }
    if a, rest :| KeyText(key) && Parts(line, a, "", "", key, rest) && Trim(rest, PySpace) == value {
      ReadFromParts(line, a, key, rest);
    }
  }

  lemma ReadInParts(line: string, key: string, value: string) returns (a: string, rest: string)
    requires LiveValue(line, key) == Some(value)
    ensures KeyText(key) && Parts(line, a, "", "", key, rest) && Trim(rest, PySpace) == value
  {
    hide KeyText, Trim, TrimStart, KeyOf, Blank, Parts;
    var text := TrimStart(line, PySpace);
    a := StartOf(line);
    NothingIsBlank();
    assert text == "" + ("" + text);
    PartsAre(line, a, "", "", text, key);
    rest := text[|key| + 1..];
    KeyOfIs(key, rest);
  }

  lemma ReadFromParts(line: string, a: string, key: string, rest: string)
    requires KeyText(key) && Parts(line, a, "", "", key, rest)
    ensures LiveValue(line, key) == Some(Trim(rest, PySpace))
  {
    hide KeyText, Trim, TrimStart, KeyOf, Blank;
    var said := key + "=" + rest;
    KeyOfIs(key, rest);
    assert line == a + said;
    TrimStartIs(a, said, PySpace);
    assert said[|key| + 1..] == rest;
  }

  /** A text is one line to Python exactly when it has none of the characters of `str.splitlines`. */
  lemma LineEndsAre(s: string)
    ensures OneLine(s) <==>
            forall c :: c in {'\n', '\U{B}', '\U{C}', '\r', '\U{1C}', '\U{1D}', '\U{1E}', '\U{85}', '\U{2028}', '\U{2029}'}
              ==> c !in s
  {
    if i :| 0 <= i < |s| && LineEnd(s[i]) {
      assert s[i] in s;
    }
  }
}
