/** Datatypes and sequence helpers shared by the models. */
module Common {

  datatype Option<+T> = None | Some(value: T)

  function Get<K, V>(m: map<K, V>, key: K): Option<V> {
    if key in m then Some(m[key]) else None
  }

  // ------------------------------------------------------------------ numbers

  function Min(x: real, y: real): real {
    if x <= y then x else y
  }

  function Max(x: real, y: real): real {
    if x >= y then x else y
  }

  // ------------------------------------------------------------------ letters and lines

  /** Lower case of the letters of ASCII. */
  function LowerChar(c: char): char {
    if 'A' <= c <= 'Z' then c - 'A' + 'a' else c
  }

  function Lower(s: string): (r: string)
    ensures |r| == |s|
  {
    if s == "" then "" else [LowerChar(s[0])] + Lower(s[1..])
  }

  /** The lines with a line feed between each two. */
  function Join(lines: seq<string>): string {
    if lines == [] then "" else if |lines| == 1 then lines[0] else lines[0] + "\n" + Join(lines[1..])
  }

  // ------------------------------------------------------------------ white space

  /** The white space that Python and JavaScript agree on. */
  predicate WhiteSpace(c: char) {
    || c == ' ' || '\t' <= c <= '\r' || c == '\U{A0}' || c == '\U{1680}' || '\U{2000}' <= c <= '\U{200A}'
    || c in {'\U{2028}', '\U{2029}', '\U{202F}', '\U{205F}', '\U{3000}'}
  }

  /** What JavaScript's `trim` and `\s` take, the byte order mark included. */
  predicate JsSpace(c: char) {
    WhiteSpace(c) || c == '\U{FEFF}'
  }

  /** What Python's `strip` and `\s` take, the separators of ASCII and the next line included. */
  predicate PySpace(c: char) {
    WhiteSpace(c) || '\U{1C}' <= c <= '\U{1F}' || c == '\U{85}'
  }

  function TrimStart(s: string, space: char -> bool): (r: string)
    ensures |r| <= |s|
    ensures r != "" ==> !space(r[0])
  {
    if s != "" && space(s[0]) then TrimStart(s[1..], space) else s
  }

  function TrimEnd(s: string, space: char -> bool): string {
    if s != "" && space(s[|s| - 1]) then TrimEnd(s[..|s| - 1], space) else s
  }

  function Trim(s: string, space: char -> bool): string {
    TrimEnd(TrimStart(s, space), space)
  }

  predicate Blank(s: string, space: char -> bool) {
    forall i :: 0 <= i < |s| ==> space(s[i])
  }

  lemma {:induction false} TrimStartIs(a: string, s: string, space: char -> bool)
    requires Blank(a, space) && (s == "" || !space(s[0]))
    ensures TrimStart(a + s, space) == s
  {
    if a == "" {
      assert a + s == s;
    } else {
      assert (a + s)[1..] == a[1..] + s;
      TrimStartIs(a[1..], s, space);
    }
  }

  lemma {:induction false} TrimEndIs(s: string, b: string, space: char -> bool)
    requires Blank(b, space) && (s == "" || !space(s[|s| - 1]))
    ensures TrimEnd(s + b, space) == s
  {
    if b == "" {
      assert s + b == s;
    } else {
      var n := |b| - 1;
      assert (s + b)[..|s + b| - 1] == s + b[..n];
      TrimEndIs(s, b[..n], space);
    }
  }

  /** What is trimmed at the start is blank. */
  lemma {:induction false} TrimStartCuts(s: string, space: char -> bool)
    ensures var k := |s| - |TrimStart(s, space)|;
            s[k..] == TrimStart(s, space) && Blank(s[..k], space)
  {
    if s != "" && space(s[0]) {
      TrimStartCuts(s[1..], space);
      var k := |s| - |TrimStart(s, space)|;
      assert s[k..] == s[1..][k - 1..] && s[..k] == [s[0]] + s[1..][..k - 1];
    }
  }

  // ------------------------------------------------------------------ sequences

  /** The pieces one after the other. */
  function Flatten<T>(pieces: seq<seq<T>>): seq<T> {
    if pieces == [] then [] else pieces[0] + Flatten(pieces[1..])
  }

  lemma ConcatAssociates<T>(a: seq<T>, b: seq<T>, c: seq<T>)
    ensures (a + b) + c == a + (b + c)
  {
  }
}
