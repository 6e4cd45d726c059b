/**
 * How a stored conversation's values become JSON and come back (chat/store.py). JSON has no bytes,
 * no tuples and only text keys, so those are written as objects with one tag: "$b", "$t" or "$d".
 * Every dict is tagged, so a dict whose own keys look like tags cannot be taken for one.
 */
module CheckpointCodec {
  import opened Common

  /** What is neither a collection nor bytes: JSON writes and reads it as it is. */
  datatype Scalar = Null | Bool(b: bool) | Number(x: real) | Text(s: string)

  datatype Value =
    | Plain(scalar: Scalar)
    | Bytes(bytes: seq<bv8>)
    | Tuple(parts: seq<Value>)
    | List(items: seq<Value>)
    | Dict(entries: seq<Entry>)

  /** A dict keeps its entries in the order they came in. */
  datatype Entry = Entry(key: Value, value: Value)

  datatype Json = Leaf(scalar: Scalar) | Array(items: seq<Json>) | Object(members: seq<Member>)
  datatype Member = Member(name: string, value: Json)

  /** The base64 library: reading text that is not base64 raises. */
  datatype Base64 = Base64(encode: seq<bv8> -> string, decode: string -> Option<seq<bv8>>)

  ghost predicate ReadsBack(b64: Base64) {
    forall bytes :: b64.decode(b64.encode(bytes)) == Some(bytes)
  }

  const BYTES := "$b"
  const TUPLE := "$t"
  const DICT := "$d"

  // ------------------------------------------------------------------ encoding

  function Tagged(tag: string, content: Json): Json {
    Object([Member(tag, content)])
  }

  function Encode(b64: Base64, v: Value): Json
    decreases v, 1
  {
    match v
    case Bytes(bytes) => Tagged(BYTES, Leaf(Text(b64.encode(bytes))))
    case Tuple(parts) => Tagged(TUPLE, Array(EncodeAll(b64, parts)))
    case List(items) => Array(EncodeAll(b64, items))
    case Dict(entries) => Tagged(DICT, Array(EncodeEntries(b64, entries)))
    case Plain(scalar) => Leaf(scalar)
  }

  function EncodeAll(b64: Base64, items: seq<Value>): (r: seq<Json>)
    ensures |r| == |items|
    decreases items, 0
  {
    if items == [] then [] else [Encode(b64, items[0])] + EncodeAll(b64, items[1..])
  }

  function EncodeEntries(b64: Base64, entries: seq<Entry>): (r: seq<Json>)
    ensures |r| == |entries|
    decreases entries, 0
  {
    if entries == [] then []
    else [EncodeEntry(b64, entries[0])] + EncodeEntries(b64, entries[1..])
  }

  function EncodeEntry(b64: Base64, entry: Entry): Json
    decreases entry, 0
  {
    Array([Encode(b64, entry.key), Encode(b64, entry.value)])
  }

  // ------------------------------------------------------------------ decoding

  /** What `value[name]` gives: of members with one name, JSON keeps the last. */
  function Lookup(members: seq<Member>, name: string): (r: Option<Json>)
    ensures r.Some? ==> exists m :: m in members && m.value == r.value
  {
    if members == [] then None
    else if members[|members| - 1].name == name then Some(members[|members| - 1].value)
    else Lookup(members[..|members| - 1], name)
  }

  /** A loop over an object meets its names, each once. */
  function Names(members: seq<Member>): seq<string> {
    if members == [] then []
    else
      var before := Names(members[..|members| - 1]);
      var name := members[|members| - 1].name;
      if name in before then before else before + [name]
  }

  function AsTexts(names: seq<string>): (r: seq<Value>)
    ensures |r| == |names|
  {
    seq(|names|, i requires 0 <= i < |names| => Plain(Text(names[i])))
  }

  /** A loop over text meets its characters. */
  function Characters(s: string): (r: seq<Value>)
    ensures |r| == |s|
  {
    seq(|s|, i requires 0 <= i < |s| => Plain(Text([s[i]])))
  }

  predicate Hashable(v: Value) {
    match v
    case Plain(_) => true
    case Bytes(_) => true
    case Tuple(parts) => forall p :: p in parts ==> Hashable(p)
    case List(_) => false
    case Dict(_) => false
  }

  /** `{..., key: value}`: a key that is there keeps its place and gets the new value. */
  function Put(entries: seq<Entry>, key: Value, value: Value): seq<Entry> {
    if entries == [] then [Entry(key, value)]
    else if entries[0].key == key then [Entry(key, value)] + entries[1..]
    else [entries[0]] + Put(entries[1..], key, value)
  }

  function DictOf(pairs: seq<Entry>): seq<Entry> {
    if pairs == [] then []
    else
      var last := pairs[|pairs| - 1];
      Put(DictOf(pairs[..|pairs| - 1]), last.key, last.value)
  }

  /** The value, or None where the code raises. */
  function Decode(b64: Base64, j: Json): Option<Value>
    decreases j, 1
  {
    match j
    case Object(members) =>
      var bytes, tuple, dict := Lookup(members, BYTES), Lookup(members, TUPLE), Lookup(members, DICT);
      if bytes.Some? then DecodeBytes(b64, bytes.value)
      else if tuple.Some? then
        var parts := DecodeEach(b64, tuple.value);
        if parts.Some? then Some(Tuple(parts.value)) else None
      else if dict.Some? then
        var pairs := DecodePairs(b64, dict.value);
        if pairs.Some? && forall p :: p in pairs.value ==> Hashable(p.key) then Some(Dict(DictOf(pairs.value)))
        else None
      else None
    case Array(items) =>
      var decoded := DecodeAll(b64, items);
      if decoded.Some? then Some(List(decoded.value)) else None
    case Leaf(scalar) => Some(Plain(scalar))
  }

  function DecodeBytes(b64: Base64, content: Json): Option<Value> {
    if content.Leaf? && content.scalar.Text? then
      var bytes := b64.decode(content.scalar.s);
      if bytes.Some? then Some(Bytes(bytes.value)) else None
    else None
  }

  /** The decoded elements of whatever a loop can go over. */
  function DecodeEach(b64: Base64, content: Json): Option<seq<Value>>
    decreases content, 0
  {
    match content
    case Array(items) => DecodeAll(b64, items)
    case Object(members) => Some(AsTexts(Names(members)))
    case Leaf(scalar) => if scalar.Text? then Some(Characters(scalar.s)) else None
  }

  function DecodeAll(b64: Base64, items: seq<Json>): (r: Option<seq<Value>>)
    ensures r.Some? ==> |r.value| == |items|
    decreases items, 0
  {
    if items == [] then Some([])
    else
      var first, rest := Decode(b64, items[0]), DecodeAll(b64, items[1..]);
      if first.Some? && rest.Some? then Some([first.value] + rest.value) else None
  }

  /** `for k, v in ...`: every element has to be two values. */
  function DecodePairs(b64: Base64, content: Json): Option<seq<Entry>>
    decreases content, 0
  {
    match content
    case Array(items) => DecodeAllPairs(b64, items)
    case Object(members) => PairsOfTexts(Names(members))
    case Leaf(scalar) => if scalar == Text("") then Some([]) else None
  }

  function DecodeAllPairs(b64: Base64, items: seq<Json>): Option<seq<Entry>>
    decreases items, 0
  {
    if items == [] then Some([])
    else
      var first, rest := DecodePair(b64, items[0]), DecodeAllPairs(b64, items[1..]);
      if first.Some? && rest.Some? then Some([first.value] + rest.value) else None
  }

  function DecodePair(b64: Base64, item: Json): Option<Entry>
    decreases item, 1
  {
    var parts := DecodeEach(b64, item);
    if parts.Some? && |parts.value| == 2 then Some(Entry(parts.value[0], parts.value[1])) else None
  }

  function PairsOfTexts(names: seq<string>): Option<seq<Entry>> {
    if names == [] then Some([])
    else
      var rest := PairsOfTexts(names[1..]);
      if rest.Some? && |names[0]| == 2 then
        var both := Characters(names[0]);
        Some([Entry(both[0], both[1])] + rest.value)
      else None
  }

  // ------------------------------------------------------------------ what a Python value can be

  ghost predicate DistinctKeys(entries: seq<Entry>) {
    forall i, j :: 0 <= i < j < |entries| ==> entries[i].key != entries[j].key
  }

  /** Every dict, at any depth, has hashable keys, each once. */
  ghost predicate WellFormed(v: Value) {
    match v
    case Plain(_) => true
    case Bytes(_) => true
    case Tuple(parts) => forall p :: p in parts ==> WellFormed(p)
    case List(items) => forall x :: x in items ==> WellFormed(x)
    case Dict(entries) => DistinctKeys(entries) && forall e :: e in entries ==> EntryWellFormed(e)
  }

  ghost predicate EntryWellFormed(e: Entry) {
    Hashable(e.key) && WellFormed(e.key) && WellFormed(e.value)
  }

  // ------------------------------------------------------------------ decoding undoes encoding

  lemma PutFresh(entries: seq<Entry>, key: Value, value: Value)
    requires forall e :: e in entries ==> e.key != key
    ensures Put(entries, key, value) == entries + [Entry(key, value)]
  {
    if entries == [] {
    } else {
      PutFresh(entries[1..], key, value);
    }
  }

  /** Entries with distinct keys come through the dict display unchanged. */
  lemma {:induction false} DistinctSurvive(entries: seq<Entry>)
    requires DistinctKeys(entries)
    ensures DictOf(entries) == entries
  {
    if entries == [] {
    } else {
      var n := |entries| - 1;
      DistinctSurvive(entries[..n]);
      PutFresh(entries[..n], entries[n].key, entries[n].value);
      assert entries[..n] + [entries[n]] == entries;
    }
  }

  lemma {:induction false} LookupTagged(tag: string, content: Json, name: string)
    ensures Lookup([Member(tag, content)], name) == if tag == name then Some(content) else None
  {
    var members := [Member(tag, content)];
    assert members[..|members| - 1] == [];
  }

  /** The three tags keep the three kinds apart. */
  lemma DecodeTagged(b64: Base64, content: Json)
    ensures Decode(b64, Tagged(BYTES, content)) == DecodeBytes(b64, content)
    ensures Decode(b64, Tagged(TUPLE, content)) ==
            var parts := DecodeEach(b64, content);
            if parts.Some? then Some(Tuple(parts.value)) else None
    ensures Decode(b64, Tagged(DICT, content)) ==
            var pairs := DecodePairs(b64, content);
            if pairs.Some? && forall p :: p in pairs.value ==> Hashable(p.key) then Some(Dict(DictOf(pairs.value)))
            else None
  {
    forall tag, name {
      LookupTagged(tag, content, name);
    }
  }

  lemma DecodeAllStep(b64: Base64, first: Json, rest: seq<Json>)
    ensures DecodeAll(b64, [first] + rest) ==
            var value, values := Decode(b64, first), DecodeAll(b64, rest);
            if value.Some? && values.Some? then Some([value.value] + values.value) else None
  {
    var items := [first] + rest;
    assert items[0] == first && items[1..] == rest;
  }

  lemma DecodeAllPairsStep(b64: Base64, first: Json, rest: seq<Json>)
    ensures DecodeAllPairs(b64, [first] + rest) ==
            var pair, pairs := DecodePair(b64, first), DecodeAllPairs(b64, rest);
            if pair.Some? && pairs.Some? then Some([pair.value] + pairs.value) else None
  {
    var items := [first] + rest;
    assert items[0] == first && items[1..] == rest;
  }

  /** Main result: reading what was written gives every value back, tags in its keys or not. */
  lemma {:induction false} DecodeUndoesEncode(b64: Base64, v: Value)
    requires ReadsBack(b64) && WellFormed(v)
    ensures Decode(b64, Encode(b64, v)) == Some(v)
    decreases v, 1
  {
    match v
    case Plain(_) =>
    case Bytes(bytes) => DecodeTagged(b64, Leaf(Text(b64.encode(bytes))));
    case Tuple(parts) =>
      DecodeTagged(b64, Array(EncodeAll(b64, parts)));
      AllComeBack(b64, parts);
    case List(items) => AllComeBack(b64, items);
    case Dict(entries) =>
      DecodeTagged(b64, Array(EncodeEntries(b64, entries)));
      EntriesComeBack(b64, entries);
      DistinctSurvive(entries);
  }

  lemma {:induction false} AllComeBack(b64: Base64, items: seq<Value>)
    requires ReadsBack(b64)
    requires forall x :: x in items ==> WellFormed(x)
    ensures DecodeAll(b64, EncodeAll(b64, items)) == Some(items)
    decreases items, 0
  {
    if items == [] {
    } else {
      var rest := EncodeAll(b64, items[1..]);
      DecodeUndoesEncode(b64, items[0]);
      AllComeBack(b64, items[1..]);
      DecodeAllStep(b64, Encode(b64, items[0]), rest);
      assert [items[0]] + items[1..] == items;
    }
  }

  lemma {:induction false} EntriesComeBack(b64: Base64, entries: seq<Entry>)
    requires ReadsBack(b64)
    requires forall e :: e in entries ==> EntryWellFormed(e)
    ensures DecodeAllPairs(b64, EncodeEntries(b64, entries)) == Some(entries)
    decreases entries, 0
  {
    if entries == [] {
    } else {
      var rest := EncodeEntries(b64, entries[1..]);
      EntryComesBack(b64, entries[0]);
      EntriesComeBack(b64, entries[1..]);
      DecodeAllPairsStep(b64, EncodeEntry(b64, entries[0]), rest);
      assert [entries[0]] + entries[1..] == entries;
    }
  }

  lemma {:induction false} EntryComesBack(b64: Base64, entry: Entry)
    requires ReadsBack(b64) && EntryWellFormed(entry)
    ensures DecodePair(b64, EncodeEntry(b64, entry)) == Some(entry)
    decreases entry, 0
  {
    var key, value := Encode(b64, entry.key), Encode(b64, entry.value);
    DecodeUndoesEncode(b64, entry.key);
    DecodeUndoesEncode(b64, entry.value);
    DecodeAllStep(b64, value, []);
    DecodeAllStep(b64, key, [value]);
    assert [value] + [] == [value] && [key] + [value] == [key, value];
  }

  /** Two values with one printed form are one value. */
  lemma EncodingIsInjective(b64: Base64, v: Value, w: Value)
    requires ReadsBack(b64) && WellFormed(v) && WellFormed(w)
    requires Encode(b64, v) == Encode(b64, w)
    ensures v == w
  {
    DecodeUndoesEncode(b64, v);
    DecodeUndoesEncode(b64, w);
  }

  // ------------------------------------------------------------------ whatever is read is a value

  lemma PutKeepsWellFormed(entries: seq<Entry>, key: Value, value: Value)
    requires WellFormed(Dict(entries)) && EntryWellFormed(Entry(key, value))
    ensures WellFormed(Dict(Put(entries, key, value)))
    ensures forall e :: e in Put(entries, key, value) ==> e.key == key || exists d :: d in entries && d.key == e.key
  {
    if entries == [] {
    } else {
      assert WellFormed(Dict(entries[1..])) by {
        assert forall e :: e in entries[1..] ==> e in entries;
      }
      PutKeepsWellFormed(entries[1..], key, value);
    }
  }

  lemma {:induction false} DictOfWellFormed(pairs: seq<Entry>)
    requires forall p :: p in pairs ==> EntryWellFormed(p)
    ensures WellFormed(Dict(DictOf(pairs)))
  {
    if pairs == [] {
    } else {
      var n := |pairs| - 1;
      DictOfWellFormed(pairs[..n]);
      assert pairs[n] in pairs;
      PutKeepsWellFormed(DictOf(pairs[..n]), pairs[n].key, pairs[n].value);
    }
  }

  /** Any JSON at all, a damaged or edited row included, is refused or read as a proper value. */
  lemma {:induction false} DecodedIsWellFormed(b64: Base64, j: Json)
    ensures Decode(b64, j).Some? ==> WellFormed(Decode(b64, j).value)
    decreases j, 2
  {
    match j
    case Leaf(_) =>
    case Array(items) => AllDecodedWellFormed(b64, items);
    case Object(members) =>
      var tuple, dict := Lookup(members, TUPLE), Lookup(members, DICT);
      if tuple.Some? {
        EachDecodedWellFormed(b64, tuple.value);
      }
      if dict.Some? {
        PairsDecodedWellFormed(b64, dict.value);
        var pairs := DecodePairs(b64, dict.value);
        if pairs.Some? && forall p :: p in pairs.value ==> Hashable(p.key) {
          DictOfWellFormed(pairs.value);
        }
      }
  }

  ghost predicate AllWellFormed(values: seq<Value>) {
    forall v :: v in values ==> WellFormed(v)
  }

  ghost predicate PairsWellFormed(pairs: seq<Entry>) {
    forall p :: p in pairs ==> WellFormed(p.key) && WellFormed(p.value)
  }

  lemma {:induction false} AllDecodedWellFormed(b64: Base64, items: seq<Json>)
    ensures DecodeAll(b64, items).Some? ==> AllWellFormed(DecodeAll(b64, items).value)
    decreases items, 1
  {
    if items == [] {
    } else {
      DecodedIsWellFormed(b64, items[0]);
      AllDecodedWellFormed(b64, items[1..]);
    }
  }

  lemma {:induction false} EachDecodedWellFormed(b64: Base64, content: Json)
    ensures DecodeEach(b64, content).Some? ==> AllWellFormed(DecodeEach(b64, content).value)
    decreases content, 1
  {
    if content.Array? {
      AllDecodedWellFormed(b64, content.items);
    }
  }

  lemma {:induction false} PairsDecodedWellFormed(b64: Base64, content: Json)
    ensures DecodePairs(b64, content).Some? ==> PairsWellFormed(DecodePairs(b64, content).value)
    decreases content, 1
  {
    match content
    case Array(items) => AllPairsDecodedWellFormed(b64, items);
    case Object(members) => TextPairsWellFormed(Names(members));
    case Leaf(_) =>
  }

  lemma {:induction false} AllPairsDecodedWellFormed(b64: Base64, items: seq<Json>)
    ensures DecodeAllPairs(b64, items).Some? ==> PairsWellFormed(DecodeAllPairs(b64, items).value)
    decreases items, 1
  {
    if items == [] {
    } else {
      EachDecodedWellFormed(b64, items[0]);
      AllPairsDecodedWellFormed(b64, items[1..]);
    }
  }

  lemma TextPairsWellFormed(names: seq<string>)
    ensures PairsOfTexts(names).Some? ==> PairsWellFormed(PairsOfTexts(names).value)
  {
  }

  // ------------------------------------------------------------------ rows of another shape

  /** What is reached through tuples alone, by the places of their parts. */
  function At(v: Value, path: seq<nat>): Option<Value> {
    if path == [] then Some(v)
    else if v.Tuple? && path[0] < |v.parts| then At(v.parts[path[0]], path[1..])
    else None
  }

  predicate MutableAt(v: Value, path: seq<nat>) {
    At(v, path).Some? && (At(v, path).value.List? || At(v, path).value.Dict?)
  }

  lemma {:induction false} PathToMutable(v: Value) returns (path: seq<nat>)
    requires !Hashable(v)
    ensures MutableAt(v, path)
  {
    path := [];
    if v.Tuple? {
      var p :| p in v.parts && !Hashable(p);
      var i: nat :| i < |v.parts| && v.parts[i] == p;
      var rest := PathToMutable(p);
      path := [i] + rest;
      assert path[1..] == rest;
    }
  }

  lemma {:induction false} NothingMutable(v: Value, path: seq<nat>)
    requires Hashable(v)
    ensures !MutableAt(v, path)
    decreases path
  {
    if path != [] && v.Tuple? && path[0] < |v.parts| {
      assert v.parts[path[0]] in v.parts;
      NothingMutable(v.parts[path[0]], path[1..]);
    }
  }

  /** A value can be a key exactly when no list and no dict is reached through its tuples. */
  lemma HashableIff(v: Value)
    ensures Hashable(v) <==> forall path :: !MutableAt(v, path)
  {
    hide MutableAt, At;
    if Hashable(v) {
      forall path ensures !MutableAt(v, path) {
        NothingMutable(v, path);
      }
    } else {
      var path := PathToMutable(v);
    }
  }

  /** A loop over an object meets every name of it, and each once. */
  lemma {:induction false} NamesAreMetOnce(members: seq<Member>)
    ensures forall i, j :: 0 <= i < j < |Names(members)| ==> Names(members)[i] != Names(members)[j]
    ensures forall name :: name in Names(members) <==> exists k :: 0 <= k < |members| && members[k].name == name
  {
    if members != [] {
      var n := |members| - 1;
      NamesAreMetOnce(members[..n]);
      assert members[n].name in Names(members);
    }
  }

  lemma {:induction false} PairsAreTwoCharacters(names: seq<string>)
    ensures PairsOfTexts(names).Some? <==> forall name :: name in names ==> |name| == 2
    ensures PairsOfTexts(names).Some? ==>
              && |PairsOfTexts(names).value| == |names|
              && forall i :: 0 <= i < |names| ==>
                   PairsOfTexts(names).value[i] == Entry(Plain(Text([names[i][0]])), Plain(Text([names[i][1]])))
  {
    if names != [] {
      PairsAreTwoCharacters(names[1..]);
      assert forall name :: name in names <==> name == names[0] || name in names[1..];
    }
  }

  /**
   What Python makes of a dict's row that is no list of pairs: text is refused unless it is empty, and an object
   unless each of its names has two characters, of which one becomes a key and one its value.
   */
  lemma OddDicts(b64: Base64, content: Json)
    requires !content.Array?
    ensures content.Leaf? ==>
              Decode(b64, Tagged(DICT, content)) == if content.scalar == Text("") then Some(Dict([])) else None
    ensures content.Object? ==>
              (Decode(b64, Tagged(DICT, content)).Some? <==>
               forall k :: 0 <= k < |content.members| ==> |content.members[k].name| == 2)
  {
    var members := [Member(DICT, content)];
    assert members[..0] == [] && Lookup([], BYTES).None? && Lookup([], TUPLE).None?;
    assert BYTES[1] == 'b' && TUPLE[1] == 't' && DICT[1] == 'd';
    assert Lookup(members, DICT) == Some(content) && Lookup(members, BYTES).None? && Lookup(members, TUPLE).None?;
    if content.Object? {
      var names := Names(content.members);
      NamesAreMetOnce(content.members);
      PairsAreTwoCharacters(names);
      assert forall k :: 0 <= k < |content.members| ==> content.members[k].name in names;
      if PairsOfTexts(names).Some? {
        forall p | p in PairsOfTexts(names).value ensures Hashable(p.key) {
        }
      }
    }
  }
}
