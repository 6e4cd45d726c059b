/**
 * The settings file and its two readers (llm_setup.py): the editor, which also looks at commented
 * lines, and the reader, which does not. Both split the file's text at every line end that Python's
 * `splitlines` knows; first the two on lines, then on the text.
 */
module EnvFile {
  import opened Common

  // ------------------------------------------------------------------ what a line says

  predicate Upper(c: char) {
    'A' <= c <= 'Z'
  }

  predicate KeyChar(c: char) {
    Upper(c) || '0' <= c <= '9' || c == '_'
  }

  predicate ValidKey(key: string) {
    key != [] && Upper(key[0]) && forall i :: 0 <= i < |key| ==> KeyChar(key[i])
  }

  /** How many characters at the start can belong to a key. */
  function KeyLength(s: string): (n: nat)
    ensures n <= |s|
  {
    if s != [] && KeyChar(s[0]) then 1 + KeyLength(s[1..]) else 0
  }

  /** `([A-Z][A-Z0-9_]*)=` at the start of the text. */
  function KeyOf(s: string): Option<string> {
    var n := KeyLength(s);
    if s != [] && Upper(s[0]) && n < |s| && s[n] == '=' then Some(s[..n]) else None
  }

  /** The key of a line, live or commented, as the editor reads it. */
  function EditorKey(line: string): Option<string> {
    var text := TrimStart(line, PySpace);
    KeyOf(if text != [] && text[0] == '#' then TrimStart(text[1..], PySpace) else text)
  }

  /** The value of a live line of this key, as the reader reads it. */
  function LiveValue(line: string, key: string): Option<string> {
    var text := TrimStart(line, PySpace);
    if KeyOf(text) == Some(key) then Some(Trim(text[KeyLength(text) + 1..], PySpace)) else None
  }

  predicate Commented(line: string) {
    var text := TrimStart(line, PySpace);
    text != [] && text[0] == '#'
  }

  lemma LiveLineHasEditorKey(line: string, key: string)
    ensures LiveValue(line, key).Some? ==> EditorKey(line) == Some(key) && !Commented(line)
    ensures EditorKey(line) == Some(key) && !Commented(line) ==> LiveValue(line, key).Some?
  {
  }

  // ------------------------------------------------------------------ lines the editor writes

  function Live(key: string, value: string): string {
    key + "=" + value
  }

  function Dead(key: string): string {
    "# " + key + "="
  }

  lemma {:induction false} KeyLengthOf(key: string, rest: string)
    requires forall i :: 0 <= i < |key| ==> KeyChar(key[i])
    requires rest != [] && !KeyChar(rest[0])
    ensures KeyLength(key + rest) == |key|
  {
    if key == [] {
      assert key + rest == rest;
    } else {
      assert (key + rest)[1..] == key[1..] + rest;
      KeyLengthOf(key[1..], rest);
    }
  }

  lemma KeyOfWritten(key: string, rest: string)
    requires ValidKey(key)
    ensures KeyOf(key + "=" + rest) == Some(key) && KeyLength(key + "=" + rest) == |key|
    ensures TrimStart(key + "=" + rest, PySpace) == key + "=" + rest
    ensures (key + "=" + rest)[0] == key[0]
  {
    assert key + "=" + rest == key + ("=" + rest);
    KeyLengthOf(key, "=" + rest);
    assert (key + "=" + rest)[0] == key[0];
  }

  lemma LiveIsRead(key: string, value: string)
    requires ValidKey(key)
    ensures EditorKey(Live(key, value)) == Some(key)
    ensures LiveValue(Live(key, value), key) == Some(Trim(value, PySpace))
    ensures forall other :: other != key ==> LiveValue(Live(key, value), other).None?
  {
    KeyOfWritten(key, value);
    assert Live(key, value)[|key| + 1..] == value;
  }

  lemma DeadIsNotRead(key: string)
    requires ValidKey(key)
    ensures EditorKey(Dead(key)) == Some(key) && Commented(Dead(key))
    ensures forall other :: LiveValue(Dead(key), other).None?
  {
    var line := Dead(key);
    var spaced := " " + key + "=";
    assert line[1..] == spaced && line[0] == '#';
    assert TrimStart(line, PySpace) == line;
    assert spaced[1..] == key + "=" + "";
    KeyOfWritten(key, "");
    assert TrimStart(spaced, PySpace) == TrimStart(spaced[1..], PySpace);
  }

  // ------------------------------------------------------------------ reading

  /** What the file says of a key: the last live line counts. */
  function Setting(lines: seq<string>, key: string): Option<string> {
    if lines == [] then None
    else
      var later := Setting(lines[1..], key);
      if later.Some? then later else LiveValue(lines[0], key)
  }

  /** The key and value of a live line. */
  function LivePair(line: string): Option<(string, string)> {
    var key := KeyOf(TrimStart(line, PySpace));
    if key.Some? && LiveValue(line, key.value).Some? then Some((key.value, LiveValue(line, key.value).value)) else None
  }

  lemma {:induction false} SettingOfLast(lines: seq<string>, line: string, key: string)
    ensures Setting(lines + [line], key) ==
            if LiveValue(line, key).Some? then LiveValue(line, key) else Setting(lines, key)
  {
    if lines == [] {
      assert lines + [line] == [line];
    } else {
      assert (lines + [line])[1..] == lines[1..] + [line];
      SettingOfLast(lines[1..], line, key);
    }
  }

  /** The loop of `read_env_file`. */
  method ReadLines(lines: seq<string>) returns (found: map<string, string>)
    ensures forall key :: key in found <==> Setting(lines, key).Some?
    ensures forall key :: key in found ==> Setting(lines, key) == Some(found[key])
  {
    found := map[];
    for i := 0 to |lines|
      invariant forall key :: key in found <==> Setting(lines[..i], key).Some?
      invariant forall key :: key in found ==> Setting(lines[..i], key) == Some(found[key])
    {
      assert lines[..i + 1] == lines[..i] + [lines[i]];
      forall key {
        SettingOfLast(lines[..i], lines[i], key);
      }
      var pair := LivePair(lines[i]);
      hide Setting, LiveValue;
      LivePairIs(lines[i]);
      if pair.Some? {
        found := found[pair.value.0 := pair.value.1];
      }
    }
    assert lines[..|lines|] == lines;
  }

  lemma LivePairIs(line: string)
    ensures forall key :: LiveValue(line, key) ==
              if LivePair(line).Some? && LivePair(line).value.0 == key then Some(LivePair(line).value.1) else None
  {
  }

  // ------------------------------------------------------------------ updating

  /** Settings to write, in order, each key once; an empty value takes the key out. */
  type Updates = seq<(string, string)>

  function ValueOf(updates: Updates, key: string): Option<string> {
    if updates == [] then None
    else if updates[0].0 == key then Some(updates[0].1)
    else ValueOf(updates[1..], key)
  }

  function Pop(updates: Updates, key: string): Updates {
    if updates == [] then []
    else if updates[0].0 == key then updates[1..]
    else [updates[0]] + Pop(updates[1..], key)
  }

  /** Names a setting can have, each once. */
  ghost predicate Proper(updates: Updates) {
    && (forall i, j :: 0 <= i < j < |updates| ==> updates[i].0 != updates[j].0)
    && (forall i :: 0 <= i < |updates| ==> ValidKey(updates[i].0))
  }

  function NewLine(line: string, key: string, value: string): string {
    if value != "" then Live(key, value) else if Commented(line) then line else Dead(key)
  }

  /** The lines for what is left over at the end. */
  function Appended(updates: Updates): seq<string> {
    if updates == [] then []
    else (if updates[0].1 != "" then [Live(updates[0].0, updates[0].1)] else []) + Appended(updates[1..])
  }

  /** The key of the line when it is one of those to set. */
  function KeyToSet(line: string, remaining: Updates): Option<string> {
    if EditorKey(line).Some? && ValueOf(remaining, EditorKey(line).value).Some? then EditorKey(line) else None
  }

  function Edited(lines: seq<string>, remaining: Updates): seq<string> {
    if lines == [] then Appended(remaining)
    else
      var key := KeyToSet(lines[0], remaining);
      if key.Some? then
        [NewLine(lines[0], key.value, ValueOf(remaining, key.value).value)]
        + Edited(lines[1..], Pop(remaining, key.value))
      else [lines[0]] + Edited(lines[1..], remaining)
  }

  /** Join, stripped of line ends and ended with one: no empty lines at the end, but one line at least. */
  function Trimmed(lines: seq<string>): seq<string> {
    if lines == [] then [""]
    else if lines[|lines| - 1] == "" && |lines| > 1 then Trimmed(lines[..|lines| - 1])
    else lines
  }

  function Updated(lines: seq<string>, updates: Updates): seq<string> {
    Trimmed(Edited(lines, updates))
  }

  lemma EditedStep(lines: seq<string>, i: nat, remaining: Updates)
    requires i < |lines|
    ensures Edited(lines[i..], remaining) ==
            var key := KeyToSet(lines[i], remaining);
            if key.Some? then
              [NewLine(lines[i], key.value, ValueOf(remaining, key.value).value)]
              + Edited(lines[i + 1..], Pop(remaining, key.value))
            else [lines[i]] + Edited(lines[i + 1..], remaining)
  {
    assert lines[i..][0] == lines[i] && lines[i..][1..] == lines[i + 1..];
  }

  lemma AppendedStep(updates: Updates, i: nat)
    requires i < |updates|
    ensures Appended(updates[i..]) ==
            (if updates[i].1 != "" then [Live(updates[i].0, updates[i].1)] else []) + Appended(updates[i + 1..])
  {
    assert updates[i..][0] == updates[i] && updates[i..][1..] == updates[i + 1..];
  }

  /** The loops of `update_env_file`. */
  method EditLines(lines: seq<string>, updates: Updates) returns (out: seq<string>)
    ensures out == Edited(lines, updates)
  {
    hide Edited, Appended, Trimmed, NewLine, Live, Pop, ValueOf, EditorKey;
    var remaining := updates;
    out := [];
    assert lines[0..] == lines;
    for i := 0 to |lines|
      invariant out + Edited(lines[i..], remaining) == Edited(lines, updates)
    {
      EditedStep(lines, i, remaining);
      var key := KeyToSet(lines[i], remaining);
      if key.Some? {
        var line := NewLine(lines[i], key.value, ValueOf(remaining, key.value).value);
        remaining := Pop(remaining, key.value);
        ConcatAssociates(out, [line], Edited(lines[i + 1..], remaining));
        out := out + [line];
      } else {
        ConcatAssociates(out, [lines[i]], Edited(lines[i + 1..], remaining));
        out := out + [lines[i]];
      }
    }
    assert lines[|lines|..] == [] && remaining[0..] == remaining;
    EndOfFile(remaining);
    for i := 0 to |remaining|
      invariant out + Appended(remaining[i..]) == Edited(lines, updates)
    {
      AppendedStep(remaining, i);
      var more := if remaining[i].1 != "" then [Live(remaining[i].0, remaining[i].1)] else [];
      ConcatAssociates(out, more, Appended(remaining[i + 1..]));
      out := out + more;
    }
    assert remaining[|remaining|..] == [];
    EndOfFile([]);
    assert out + [] == out;
  }

  lemma EndOfFile(remaining: Updates)
    ensures Edited([], remaining) == Appended(remaining)
    ensures Appended([]) == []
  {
  }

  // ------------------------------------------------------------------ what is read after an update

  /** A live line of the key comes after its first line, live or commented. */
  predicate Shadowed(lines: seq<string>, key: string) {
    lines != []
    && if EditorKey(lines[0]) == Some(key) then Setting(lines[1..], key).Some? else Shadowed(lines[1..], key)
  }

  /** What a file says of a key after it was set to this. */
  function Meaning(value: string): Option<string> {
    if value == "" then None else Some(Trim(value, PySpace))
  }

  /** What the reader should find. */
  function Wanted(lines: seq<string>, updates: Updates, key: string): Option<string> {
    var value := ValueOf(updates, key);
    if value.Some? then Meaning(value.value) else Setting(lines, key)
  }

  lemma ProperTail(updates: Updates)
    requires Proper(updates) && updates != []
    ensures Proper(updates[1..]) && ValidKey(updates[0].0)
    ensures ValueOf(updates[1..], updates[0].0).None?
  {
    NotAmong(updates[1..], updates[0].0);
  }

  lemma NotAmong(updates: Updates, key: string)
    requires forall i :: 0 <= i < |updates| ==> updates[i].0 != key
    ensures ValueOf(updates, key).None?
  {
  }

  lemma {:induction false} PopTakesFrom(updates: Updates, key: string)
    ensures forall u :: u in Pop(updates, key) ==> u in updates
  {
    if updates != [] {
      PopTakesFrom(updates[1..], key);
    }
  }

  lemma {:induction false} PopIsProper(updates: Updates, key: string)
    requires Proper(updates)
    ensures Proper(Pop(updates, key))
  {
    hide ValidKey, ValueOf;
    if updates != [] && updates[0].0 != key {
      ProperTail(updates);
      PopIsProper(updates[1..], key);
      PopTakesFrom(updates[1..], key);
      var p := Pop(updates[1..], key);
      forall i | 0 <= i < |p| ensures p[i].0 != updates[0].0 {
        assert p[i] in updates[1..];
      }
    } else if updates != [] {
      ProperTail(updates);
    }
  }

  lemma {:induction false} PopIs(updates: Updates, key: string, other: string)
    requires Proper(updates)
    ensures Proper(Pop(updates, key))
    ensures ValueOf(Pop(updates, key), other) == if other == key then None else ValueOf(updates, other)
    ensures ValueOf(updates, key).Some? ==> ValidKey(key)
  {
    PopIsProper(updates, key);
    hide Proper, ValidKey;
    if updates != [] {
      ProperTail(updates);
      PopIs(updates[1..], key, other);
    }
  }

  lemma {:induction false} SettingOfAppended(updates: Updates, key: string)
    requires Proper(updates)
    ensures Setting(Appended(updates), key) == if ValueOf(updates, key).Some? then Meaning(ValueOf(updates, key).value) else None
  {
    if updates == [] {
    } else {
      hide Proper, Live, LiveValue, EditorKey, ValidKey;
      ProperTail(updates);
      SettingOfAppended(updates[1..], key);
      LiveIsRead(updates[0].0, updates[0].1);
      if updates[0].1 != "" {
        assert Appended(updates)[1..] == Appended(updates[1..]);
      } else {
        assert Appended(updates) == Appended(updates[1..]);
      }
    }
  }

  lemma NewLineIsRead(line: string, key: string, value: string, other: string)
    requires EditorKey(line) == Some(key) && ValidKey(key)
    ensures LiveValue(NewLine(line, key, value), other) == if other == key then Meaning(value) else None
    ensures EditorKey(NewLine(line, key, value)) == Some(key)
    ensures NewLine(NewLine(line, key, value), key, value) == NewLine(line, key, value)
  {
    hide Live, Dead, LiveValue, EditorKey, ValidKey, Commented;
    LiveIsRead(key, value);
    DeadIsNotRead(key);
    LiveLineHasEditorKey(line, other);
  }

  /** Reading the edited lines, key by key; `Shadowed` keys keep what the file said. */
  lemma {:induction false} SettingOfEdited(lines: seq<string>, updates: Updates, key: string)
    requires Proper(updates)
    ensures Setting(Edited(lines, updates), key) ==
            if Shadowed(lines, key) then Setting(lines, key) else Wanted(lines, updates, key)
  {
    hide Proper, Live, Dead, LiveValue, EditorKey, ValidKey, Commented, NewLine, Pop, ValueOf, Appended;
    if lines == [] {
      SettingOfAppended(updates, key);
    } else {
      var line := lines[0];
      var wanted := KeyToSet(line, updates);
      LiveLineHasEditorKey(line, key);
      assert Edited(lines, updates)[1..] ==
             Edited(lines[1..], if wanted.Some? then Pop(updates, wanted.value) else updates);
      if wanted.Some? {
        PopIs(updates, wanted.value, key);
        SettingOfEdited(lines[1..], Pop(updates, wanted.value), key);
        NewLineIsRead(line, wanted.value, ValueOf(updates, wanted.value).value, key);
      } else {
        SettingOfEdited(lines[1..], updates, key);
      }
    }
  }

  lemma {:induction false} SettingOfTrimmed(lines: seq<string>, key: string)
    ensures Setting(Trimmed(lines), key) == Setting(lines, key)
  {
    EmptyLineSaysNothing(key);
    hide LiveValue;
    if lines == [] {
      assert [""][1..] == [];
    } else if lines[|lines| - 1] == "" && |lines| > 1 {
      var rest := lines[..|lines| - 1];
      SettingOfTrimmed(rest, key);
      SettingOfLast(rest, "", key);
      assert rest + [""] == lines;
    }
  }

  lemma EmptyLineSaysNothing(key: string)
    ensures LiveValue("", key).None? && EditorKey("").None?
  {
  }

  lemma SettingOfUpdated(lines: seq<string>, updates: Updates, key: string)
    requires Proper(updates)
    ensures Setting(Updated(lines, updates), key) ==
            if Shadowed(lines, key) then Setting(lines, key) else Wanted(lines, updates, key)
  {
    SettingOfTrimmed(Edited(lines, updates), key);
    SettingOfEdited(lines, updates, key);
  }

  lemma NoLineNoSetting(lines: seq<string>, key: string)
    requires forall i :: 0 <= i < |lines| ==> EditorKey(lines[i]) != Some(key)
    ensures Setting(lines, key).None?
  {
    if lines != [] {
      NoLineNoSetting(lines[1..], key);
      LiveLineHasEditorKey(lines[0], key);
    }
  }

  /** A key on at most one line, live or commented, is not shadowed. */
  lemma {:induction false} OneLineIsNotShadowed(lines: seq<string>, key: string)
    requires forall i, j :: 0 <= i < j < |lines| && EditorKey(lines[i]) == Some(key) ==> EditorKey(lines[j]) != Some(key)
    ensures !Shadowed(lines, key)
  {
    hide EditorKey, LiveValue, Commented;
    if lines == [] {
    } else if EditorKey(lines[0]) == Some(key) {
      forall i | 0 <= i < |lines[1..]| ensures EditorKey(lines[1..][i]) != Some(key) {
        assert lines[1..][i] == lines[i + 1];
      }
      NoLineNoSetting(lines[1..], key);
    } else {
      OneLineIsNotShadowed(lines[1..], key);
    }
  }

  // ------------------------------------------------------------------ updating again

  lemma {:induction false} AppendedStays(empty: Updates, rest: Updates)
    requires Proper(empty + rest)
    requires forall i :: 0 <= i < |empty| ==> empty[i].1 == ""
    ensures Edited(Appended(rest), empty + rest) == Appended(rest)
    decreases |rest|
  {
    hide Live, EditorKey, ValidKey, NewLine;
    if rest == [] {
      assert empty + rest == empty;
      NothingAppended(empty);
    } else if rest[0].1 == "" {
      assert empty + rest == (empty + [rest[0]]) + rest[1..];
      AppendedStays(empty + [rest[0]], rest[1..]);
      assert Appended(rest) == Appended(rest[1..]);
    } else {
      var (key, value) := rest[0];
      PopMiddle(empty, rest);
      PopIs(empty + rest, key, key);
      AppendedStays(empty, rest[1..]);
      LiveIsRead(key, value);
      NewLineIsRead(Live(key, value), key, value, key);
      NewLineLive(Live(key, value), key, value);
      assert Appended(rest)[0] == Live(key, value) && Appended(rest)[1..] == Appended(rest[1..]);
    }
  }

  lemma NewLineLive(line: string, key: string, value: string)
    requires value != ""
    ensures NewLine(line, key, value) == Live(key, value)
  {
  }

  lemma NothingAppended(updates: Updates)
    requires forall i :: 0 <= i < |updates| ==> updates[i].1 == ""
    ensures Appended(updates) == []
  {
  }

  lemma {:induction false} PopMiddle(before: Updates, rest: Updates)
    requires rest != [] && Proper(before + rest)
    ensures Pop(before + rest, rest[0].0) == before + rest[1..]
    ensures ValueOf(before + rest, rest[0].0) == Some(rest[0].1)
  {
    if before == [] {
      assert before + rest == rest;
      assert before + rest[1..] == rest[1..];
    } else {
      assert (before + rest)[1..] == before[1..] + rest;
      assert (before + rest)[|before|].0 == rest[0].0;
      ProperTail(before + rest);
      PopMiddle(before[1..], rest);
    }
  }

  /** The edited lines are left as they are by the same edit. */
  lemma {:induction false} EditedStays(lines: seq<string>, updates: Updates)
    requires Proper(updates)
    ensures Edited(Edited(lines, updates), updates) == Edited(lines, updates)
  {
    hide Proper, EditorKey, NewLine, ValidKey;
    if lines == [] {
      assert [] + updates == updates;
      AppendedStays([], updates);
    } else {
      var key := KeyToSet(lines[0], updates);
      var edited := Edited(lines, updates);
      if key.Some? {
        var value := ValueOf(updates, key.value).value;
        PopIs(updates, key.value, key.value);
        NewLineIsRead(lines[0], key.value, value, key.value);
        EditedStays(lines[1..], Pop(updates, key.value));
        assert edited[1..] == Edited(lines[1..], Pop(updates, key.value));
      } else {
        EditedStays(lines[1..], updates);
        assert edited[1..] == Edited(lines[1..], updates);
      }
    }
  }

  lemma {:induction false} StaysWithoutLast(lines: seq<string>, updates: Updates)
    requires Edited(lines + [""], updates) == lines + [""]
    ensures Edited(lines, updates) == lines
  {
    hide EditorKey, NewLine, Pop, ValueOf, Appended;
    EmptyLineSaysNothing("");
    var all := lines + [""];
    if lines == [] {
      assert all == [""] && all[1..] == [];
      assert Edited(all, updates) == [""] + Appended(updates);
      assert |Edited(all, updates)| == 1 + |Appended(updates)|;
    } else {
      assert all[0] == lines[0] && all[1..] == lines[1..] + [""];
      var key := KeyToSet(lines[0], updates);
      var rest := if key.Some? then Pop(updates, key.value) else updates;
      assert Edited(all, updates)[1..] == Edited(lines[1..] + [""], rest);
      StaysWithoutLast(lines[1..], rest);
      assert Edited(lines, updates)[0] == Edited(all, updates)[0];
    }
  }

  lemma {:induction false} TrimmedStays(lines: seq<string>, updates: Updates)
    requires Edited(lines, updates) == lines
    ensures Edited(Trimmed(lines), updates) == Trimmed(lines)
  {
    hide EditorKey, NewLine, Pop, ValueOf, Appended;
    if lines == [] {
      EmptyLineSaysNothing("");
      assert [""][1..] == [];
    } else if lines[|lines| - 1] == "" && |lines| > 1 {
      var rest := lines[..|lines| - 1];
      assert rest + [""] == lines;
      StaysWithoutLast(rest, updates);
      TrimmedStays(rest, updates);
    }
  }

  lemma TrimmedTwice(lines: seq<string>)
    ensures Trimmed(Trimmed(lines)) == Trimmed(lines)
  {
  }

  // ------------------------------------------------------------------ the lines that are not touched

  /** Of the other lines those with something on them: comments and settings that are not set. */
  function Others(lines: seq<string>, updates: Updates): seq<string> {
    if lines == [] then []
    else (if lines[0] == "" || KeyToSet(lines[0], updates).Some? then [] else [lines[0]]) + Others(lines[1..], updates)
  }

  /** The keys left to set are among all of them. */
  ghost predicate Among(remaining: Updates, updates: Updates) {
    forall key :: ValueOf(remaining, key).Some? ==> ValueOf(updates, key).Some?
  }

  lemma {:induction false} OthersOfAppended(remaining: Updates, updates: Updates)
    requires Proper(remaining) && Among(remaining, updates)
    ensures Others(Appended(remaining), updates) == []
  {
    if remaining == [] {
    } else {
      ProperTail(remaining);
      var (key, value) := remaining[0];
      assert ValueOf(remaining, key).Some?;
      LiveIsRead(key, value);
      hide Live, EditorKey, LiveValue, ValidKey;
      forall other | ValueOf(remaining[1..], other).Some? ensures ValueOf(updates, other).Some? {
        assert ValueOf(remaining, other).Some?;
      }
      OthersOfAppended(remaining[1..], updates);
      if value != "" {
        assert Appended(remaining)[1..] == Appended(remaining[1..]);
      } else {
        assert Appended(remaining) == Appended(remaining[1..]);
      }
    }
  }

  lemma {:induction false} OthersOfEdited(lines: seq<string>, remaining: Updates, updates: Updates)
    requires Proper(remaining) && Among(remaining, updates)
    ensures Others(Edited(lines, remaining), updates) == Others(lines, updates)
  {
    hide Proper, EditorKey, LiveValue, NewLine, Pop, ValueOf, Appended, ValidKey;
    if lines == [] {
      OthersOfAppended(remaining, updates);
    } else {
      var key := KeyToSet(lines[0], remaining);
      var rest := if key.Some? then Pop(remaining, key.value) else remaining;
      assert Edited(lines, remaining)[1..] == Edited(lines[1..], rest);
      if key.Some? {
        PopIsProper(remaining, key.value);
        forall other | ValueOf(rest, other).Some? ensures ValueOf(updates, other).Some? {
          PopIs(remaining, key.value, other);
        }
        PopIs(remaining, key.value, key.value);
        NewLineIsRead(lines[0], key.value, ValueOf(remaining, key.value).value, key.value);
      }
      OthersOfEdited(lines[1..], rest, updates);
    }
  }

  lemma {:induction false} OthersOfTrimmed(lines: seq<string>, updates: Updates)
    ensures Others(Trimmed(lines), updates) == Others(lines, updates)
  {
    if lines == [] {
      assert [""][1..] == [];
    } else if lines[|lines| - 1] == "" && |lines| > 1 {
      var rest := lines[..|lines| - 1];
      assert rest + [""] == lines;
      OthersOfTrimmed(rest, updates);
      OthersWithEmpty(rest, updates);
    }
  }

  lemma {:induction false} OthersWithEmpty(lines: seq<string>, updates: Updates)
    ensures Others(lines + [""], updates) == Others(lines, updates)
  {
    if lines == [] {
      assert lines + [""] == [""] && [""][1..] == [];
    } else {
      assert (lines + [""])[1..] == lines[1..] + [""];
      OthersWithEmpty(lines[1..], updates);
    }
  }

  lemma OthersOfUpdated(lines: seq<string>, updates: Updates)
    requires Proper(updates)
    ensures Others(Updated(lines, updates), updates) == Others(lines, updates)
  {
    OthersOfTrimmed(Edited(lines, updates), updates);
    OthersOfEdited(lines, updates, updates);
  }

  // ------------------------------------------------------------------ lines and text

  /** Where `splitlines` ends a line. */
  predicate LineEnd(c: char) {
    '\n' <= c <= '\r' || '\U{1C}' <= c <= '\U{1E}' || c == '\U{85}' || c == '\U{2028}' || c == '\U{2029}'
  }

  predicate OneLine(s: string) {
    forall i :: 0 <= i < |s| ==> !LineEnd(s[i])
  }

  function LineLength(s: string): (n: nat)
    ensures n <= |s|
    ensures OneLine(s[..n])
    ensures n < |s| ==> LineEnd(s[n])
  {
    if s == "" || LineEnd(s[0]) then 0
    else
      var n := LineLength(s[1..]);
      assert s[..1 + n] == [s[0]] + s[1..][..n];
      1 + n
  }

  /** Carriage return and line feed end one line together. */
  function Splitlines(s: string): (lines: seq<string>)
    decreases |s|
  {
    if s == "" then []
    else
      var n := LineLength(s);
      if n == |s| then [s]
      else
        var both := s[n] == '\r' && n + 1 < |s| && s[n + 1] == '\n';
        [s[..n]] + Splitlines(s[if both then n + 2 else n + 1..])
  }

  predicate Clean(lines: seq<string>) {
    forall i :: 0 <= i < |lines| ==> OneLine(lines[i])
  }

  lemma {:induction false} SplitIsClean(s: string)
    ensures Clean(Splitlines(s))
    decreases |s|
  {
    hide OneLine, LineEnd;
    if s != "" {
      var n := LineLength(s);
      if n == |s| {
        assert s[..n] == s;
      } else {
        SplitIsClean(s[if s[n] == '\r' && n + 1 < |s| && s[n + 1] == '\n' then n + 2 else n + 1..]);
      }
    }
  }

  function WithoutLineFeeds(s: string): string {
    if s != "" && s[|s| - 1] == '\n' then WithoutLineFeeds(s[..|s| - 1]) else s
  }

  /** The text that is written: `"\n".join(out).rstrip("\n") + "\n"`. */
  function Written(out: seq<string>): string {
    WithoutLineFeeds(Join(out)) + "\n"
  }

  function Ended(lines: seq<string>): string {
    if lines == [] then "" else lines[0] + "\n" + Ended(lines[1..])
  }

  lemma {:induction false} JoinedIsEnded(lines: seq<string>)
    requires lines != []
    ensures Join(lines) + "\n" == Ended(lines)
  {
    if |lines| == 1 {
      assert lines[1..] == [];
    } else {
      JoinedIsEnded(lines[1..]);
    }
  }

  lemma {:induction false} JoinedLast(lines: seq<string>, last: string)
    requires lines != []
    ensures Join(lines + [last]) == Join(lines) + "\n" + last
  {
    if |lines| > 1 {
      assert (lines + [last])[1..] == lines[1..] + [last];
      JoinedLast(lines[1..], last);
    } else {
      assert (lines + [last])[1..] == [last];
    }
  }

  lemma LineFeedEnds(s: string)
    ensures WithoutLineFeeds(s + "\n") == WithoutLineFeeds(s)
  {
    assert (s + "\n")[..|s|] == s;
  }

  lemma JoinedEnd(lines: seq<string>)
    requires Clean(lines) && lines != [] && lines[|lines| - 1] != ""
    ensures Join(lines) != "" && Join(lines)[|Join(lines)| - 1] != '\n'
  {
    var n := |lines| - 1;
    var last := lines[n];
    assert !LineEnd(last[|last| - 1]);
    assert lines == lines[..n] + [last];
    if n > 0 {
      JoinedLast(lines[..n], last);
    }
  }

  /** Joining, stripping and ending gives each remaining line its line feed. */
  lemma {:induction false} WrittenIsEnded(out: seq<string>)
    requires Clean(out)
    ensures Written(out) == Ended(Trimmed(out))
  {
    hide OneLine;
    if out == [] {
      JoinedIsEnded([""]);
    } else if out[|out| - 1] == "" && |out| > 1 {
      var rest := out[..|out| - 1];
      WrittenIsEnded(rest);
      LineFeedEnds(Join(rest));
      assert out == rest + [""];
      JoinedLast(rest, "");
      assert Join(rest) + "\n" + "" == Join(rest) + "\n";
    } else {
      JoinedIsEnded(out);
      if out[|out| - 1] != "" {
        JoinedEnd(out);
      } else {
        assert out == [""];
      }
    }
  }

  lemma {:induction false} LineLengthOf(line: string, rest: string)
    requires OneLine(line)
    ensures LineLength(line + "\n" + rest) == |line|
  {
    var s := line + "\n" + rest;
    if line == "" {
      assert s[0] == '\n';
    } else {
      assert s[0] == line[0] && s[1..] == line[1..] + "\n" + rest;
      LineLengthOf(line[1..], rest);
    }
  }

  lemma {:induction false} EndedSplits(lines: seq<string>)
    requires Clean(lines)
    ensures Splitlines(Ended(lines)) == lines
  {
    if lines != [] {
      var line, rest := lines[0], Ended(lines[1..]);
      EndedSplits(lines[1..]);
      hide OneLine;
      LineLengthOf(line, rest);
      var s := line + "\n" + rest;
      assert s[..|line|] == line && s[|line|] == '\n' && s[|line| + 1..] == rest;
    }
  }

  // ------------------------------------------------------------------ the file

  /** `update_env_file` on the file's text; a file that is not there has none. */
  function FileAfter(text: string, updates: Updates): string {
    Written(Edited(Splitlines(text), updates))
  }

  /** What `read_env_file` finds of a key. */
  function Found(text: string, key: string): Option<string> {
    Setting(Splitlines(text), key)
  }

  /** `update_env_file`. */
  method UpdateEnvFile(text: string, updates: Updates) returns (written: string)
    ensures written == FileAfter(text, updates)
  {
    var out := EditLines(Splitlines(text), updates);
    written := Written(out);
  }

  /** `read_env_file`. */
  method ReadEnvFile(text: string) returns (found: map<string, string>)
    ensures forall key :: key in found <==> Found(text, key).Some?
    ensures forall key :: key in found ==> Found(text, key) == Some(found[key])
  {
    found := ReadLines(Splitlines(text));
  }

  predicate OneLineEach(updates: Updates) {
    forall i :: 0 <= i < |updates| ==> OneLine(updates[i].1)
  }

  lemma KeyIsOneLine(key: string)
    requires ValidKey(key)
    ensures OneLine(key) && OneLine(Dead(key))
  {
    forall i | 0 <= i < |key| ensures !LineEnd(key[i]) {
      assert KeyChar(key[i]);
    }
  }

  lemma LiveIsOneLine(key: string, value: string)
    requires ValidKey(key)
    ensures OneLine(Live(key, value)) <==> OneLine(value)
  {
    KeyIsOneLine(key);
    var line := Live(key, value);
    assert forall i :: 0 <= i < |value| ==> line[|key| + 1 + i] == value[i];
  }

  lemma {:induction false} AppendedIsClean(updates: Updates)
    requires Proper(updates)
    ensures Clean(Appended(updates)) <==> OneLineEach(updates)
  {
    if updates == [] {
    } else {
      var (key, value) := updates[0];
      ProperTail(updates);
      AppendedIsClean(updates[1..]);
      LiveIsOneLine(key, value);
      hide Proper, Live, OneLine;
      EmptyIsOneLine();
      HeadAndTail(updates);
      if value != "" {
        CleanHead(Live(key, value), Appended(updates[1..]));
      } else {
        assert Appended(updates) == Appended(updates[1..]);
      }
    }
  }

  lemma EmptyIsOneLine()
    ensures OneLine("")
  {
  }

  lemma HeadAndTail(updates: Updates)
    requires updates != []
    ensures OneLineEach(updates) <==> OneLine(updates[0].1) && OneLineEach(updates[1..])
  {
    hide OneLine;
    assert forall i :: 1 <= i < |updates| ==> updates[i] == updates[1..][i - 1];
  }

  lemma CleanHead(line: string, rest: seq<string>)
    ensures Clean([line] + rest) <==> OneLine(line) && Clean(rest)
  {
    hide OneLine;
    var all := [line] + rest;
    assert all[0] == line;
    assert forall i :: 0 <= i < |rest| ==> all[i + 1] == rest[i];
  }

  lemma {:induction false} OneLineWithout(updates: Updates, key: string)
    requires ValueOf(updates, key).Some?
    ensures OneLineEach(updates) <==> OneLine(ValueOf(updates, key).value) && OneLineEach(Pop(updates, key))
  {
    hide OneLine;
    HeadAndTail(updates);
    if updates[0].0 != key {
      OneLineWithout(updates[1..], key);
      HeadAndTail([updates[0]] + Pop(updates[1..], key));
      assert ([updates[0]] + Pop(updates[1..], key))[1..] == Pop(updates[1..], key);
    }
  }

  lemma NewLineIsClean(line: string, key: string, value: string)
    requires OneLine(line) && ValidKey(key)
    ensures OneLine(NewLine(line, key, value)) <==> OneLine(value)
  {
    KeyIsOneLine(key);
    LiveIsOneLine(key, value);
  }

  /** Of lines that are lines, the edited ones are too exactly when every value is on one line. */
  lemma {:induction false} EditedIsClean(lines: seq<string>, updates: Updates)
    requires Proper(updates) && Clean(lines)
    ensures Clean(Edited(lines, updates)) <==> OneLineEach(updates)
  {
    hide Proper, OneLine, EditorKey, NewLine, Pop, ValueOf, Appended, ValidKey;
    if lines == [] {
      AppendedIsClean(updates);
    } else {
      var key := KeyToSet(lines[0], updates);
      CleanHead(lines[0], lines[1..]);
      assert [lines[0]] + lines[1..] == lines;
      if key.Some? {
        PopIs(updates, key.value, key.value);
        EditedIsClean(lines[1..], Pop(updates, key.value));
        OneLineWithout(updates, key.value);
        var line := NewLine(lines[0], key.value, ValueOf(updates, key.value).value);
        NewLineIsClean(lines[0], key.value, ValueOf(updates, key.value).value);
        CleanHead(line, Edited(lines[1..], Pop(updates, key.value)));
      } else {
        EditedIsClean(lines[1..], updates);
        CleanHead(lines[0], Edited(lines[1..], updates));
      }
    }
  }

  lemma {:induction false} TrimmedIsClean(lines: seq<string>)
    ensures Clean(Trimmed(lines)) <==> Clean(lines)
  {
    hide OneLine;
    EmptyIsOneLine();
    if lines != [] && lines[|lines| - 1] == "" && |lines| > 1 {
      var n := |lines| - 1;
      TrimmedIsClean(lines[..n]);
      assert forall i :: 0 <= i < n ==> lines[..n][i] == lines[i];
    }
  }

  /** Main result: the file's lines are the edited ones exactly when no value brings a line end with it. */
  lemma FileIsItsLinesIff(text: string, updates: Updates)
    requires Proper(updates)
    ensures Splitlines(FileAfter(text, updates)) == Updated(Splitlines(text), updates) <==> OneLineEach(updates)
  {
    hide *;
    var lines := Splitlines(text);
    SplitIsClean(text);
    SplitIsClean(FileAfter(text, updates));
    EditedIsClean(lines, updates);
    TrimmedIsClean(Edited(lines, updates));
    UpdatedIs(lines, updates);
    if OneLineEach(updates) {
      WrittenIsEnded(Edited(lines, updates));
      EndedSplits(Trimmed(Edited(lines, updates)));
      FileAfterIs(text, updates);
    }
  }

  lemma UpdatedIs(lines: seq<string>, updates: Updates)
    ensures Updated(lines, updates) == Trimmed(Edited(lines, updates))
  {
  }

  lemma FileAfterIs(text: string, updates: Updates)
    ensures FileAfter(text, updates) == Written(Edited(Splitlines(text), updates))
  {
  }

  /**
   * Main result: after an update the reader finds what was set, and every other key as it was; except
   * that a shadowed key is read as before, whatever it was set to.
   */
  lemma UpdateIsRead(text: string, updates: Updates, key: string)
    requires Proper(updates) && OneLineEach(updates)
    ensures Found(FileAfter(text, updates), key) ==
            if Shadowed(Splitlines(text), key) then Found(text, key) else Wanted(Splitlines(text), updates, key)
  {
    FileIsItsLinesIff(text, updates);
    SettingOfUpdated(Splitlines(text), updates, key);
  }

  /** So an update is read back exactly when no live line shadows the key, or that line says the same. */
  lemma UpdateIsReadIff(text: string, updates: Updates, key: string)
    requires Proper(updates) && OneLineEach(updates)
    ensures Found(FileAfter(text, updates), key) == Wanted(Splitlines(text), updates, key) <==>
            !Shadowed(Splitlines(text), key) || Found(text, key) == Wanted(Splitlines(text), updates, key)
  {
    UpdateIsRead(text, updates, key);
  }

  /** Main result: the same update a second time leaves the file as it is, shadowed keys or not. */
  lemma UpdatingAgainChangesNothing(text: string, updates: Updates)
    requires Proper(updates) && OneLineEach(updates)
    ensures FileAfter(FileAfter(text, updates), updates) == FileAfter(text, updates)
  {
    hide *;
    var lines := Splitlines(text);
    FileIsItsLinesIff(text, updates);
    FileAfterIs(text, updates);
    FileAfterIs(FileAfter(text, updates), updates);
    SplitIsClean(text);
    EditedIsClean(lines, updates);
    UpdatedIs(lines, updates);
    var updated := Updated(lines, updates);
    EditedStays(lines, updates);
    TrimmedStays(Edited(lines, updates), updates);
    TrimmedIsClean(Edited(lines, updates));
    TrimmedTwice(Edited(lines, updates));
    WrittenIsEnded(Edited(lines, updates));
    WrittenIsEnded(updated);
  }

  /** Main result: all other lines, comments included, stay as they are and in their order. */
  lemma OtherLinesStay(text: string, updates: Updates)
    requires Proper(updates) && OneLineEach(updates)
    ensures Others(Splitlines(FileAfter(text, updates)), updates) == Others(Splitlines(text), updates)
  {
    FileIsItsLinesIff(text, updates);
    OthersOfUpdated(Splitlines(text), updates);
  }

  // ------------------------------------------------------------------ where it goes wrong

  lemma KeysAreValid()
    ensures ValidKey("A") && ValidKey("B")
  {
  }

  /** A key on two lines, and the second wins: after setting A to 3 the reader still finds 2. */
  lemma SecondLineWins()
    ensures var text, updates := Ended([Live("A", "1"), Live("A", "2")]), [("A", "3")];
            && Proper(updates) && OneLineEach(updates)
            && Found(FileAfter(text, updates), "A") == Some("2")
  {
    var lines, updates := [Live("A", "1"), Live("A", "2")], [("A", "3")];
    KeysAreValid();
    DigitIsPlain("1");
    DigitIsPlain("2");
    DigitIsPlain("3");
    LiveIsOneLine("A", "1");
    LiveIsOneLine("A", "2");
    LiveIsRead("A", "1");
    LiveIsRead("A", "2");
    hide ValidKey, FileAfter, Live, LiveValue, EditorKey, OneLine, Ended, Splitlines, Trim;
    EndedSplits(lines);
    assert lines[1..] == [Live("A", "2")] && lines[1..][1..] == [];
    assert Setting(lines[1..], "A") == Some("2");
    assert Proper(updates);
    UpdateIsRead(Ended(lines), updates, "A");
  }

  lemma DigitIsPlain(digit: string)
    requires |digit| == 1 && '0' <= digit[0] <= '9'
    ensures OneLine(digit) && Trim(digit, PySpace) == digit
  {
  }

  /** A value with a line end sets another key: whatever follows it is a line of its own. */
  lemma LineEndSetsAnotherKey(key: string, first: string, other: string, second: string)
    requires ValidKey(key) && ValidKey(other) && OneLine(first) && OneLine(second)
    ensures var updates := [(key, first + "\n" + Live(other, second))];
            && Proper(updates) && Found("", other).None?
            && Found(FileAfter("", updates), other) == Some(Trim(second, PySpace))
  {
    hide ValidKey, Live, LiveValue, EditorKey, OneLine, Splitlines, Trim;
    var value := first + "\n" + Live(other, second);
    var lines := [Live(key, first), Live(other, second)];
    LiveIsOneLine(key, first);
    LiveIsOneLine(other, second);
    LiveIsRead(other, second);
    AppendedOne(key, value);
    TwoLines(key, first, Live(other, second));
    JoinedTwo(lines[0], lines[1]);
    EmptyFile();
    WrittenOne(Join(lines));
    WrittenIsEnded(lines);
    EndedSplits(lines);
    SettingOfTwo(lines[0], lines[1], other);
    LiveIsNotEmpty(other, second);
  }

  lemma AppendedOne(key: string, value: string)
    requires value != ""
    ensures Edited([], [(key, value)]) == [Live(key, value)]
  {
    var updates := [(key, value)];
    EndOfFile(updates);
    assert updates[1..] == [];
    assert Appended(updates) == [Live(key, value)] + Appended([]);
  }

  lemma JoinedTwo(a: string, b: string)
    ensures Join([a, b]) == a + "\n" + b
    ensures b != "" ==> Trimmed([a, b]) == [a, b]
  {
    assert [a, b][..1] == [a];
  }

  lemma SettingOfTwo(a: string, b: string, key: string)
    requires LiveValue(b, key).Some?
    ensures Setting([a, b], key) == LiveValue(b, key)
  {
    hide LiveValue;
    assert [a, b][1..] == [b] && [b][1..] == [];
    assert Setting([b], key) == LiveValue(b, key);
  }

  lemma LiveIsNotEmpty(key: string, value: string)
    ensures Live(key, value) != ""
  {
    assert Live(key, value)[|key|] == '=';
  }

  lemma TwoLines(key: string, value: string, next: string)
    ensures Live(key, value + "\n" + next) == Live(key, value) + "\n" + next
  {
    assert key + "=" + (value + "\n" + next) == key + "=" + value + "\n" + next;
  }

  lemma EmptyFile()
    ensures Splitlines("") == []
  {
  }

  lemma WrittenOne(line: string)
    ensures Written([line]) == WithoutLineFeeds(line) + "\n"
  {
  }
}
