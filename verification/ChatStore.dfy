/**
 * The chat's checkpoint store (chat/store.py): a conversation is pruned to its latest checkpoints,
 * written as one row of the file, and read back when the service starts again.
 *
 * `Conversation` is what the memory holds of one thread. LangGraph resumes a conversation from the
 * latest checkpoint of a namespace, that checkpoint's pending writes, and the channel values it
 * names (`ResumeAt`); the results say that pruning, writing and reading back never change that.
 */
module ChatStore {
  import opened Common
  import opened CheckpointCodec

  datatype WriteKey = WriteKey(thread: string, namespace: string, checkpoint: string)
  datatype BlobKey = BlobKey(thread: string, namespace: string, channel: string, version: Value)

  datatype Memory = Memory(
    storage: map<string, map<string, map<string, Value>>>,
    writes: map<WriteKey, map<Value, Value>>,
    blobs: map<BlobKey, Value>)

  datatype Conversation = Conversation(
    storage: map<string, map<string, Value>>,
    writes: map<WriteKey, map<Value, Value>>,
    blobs: map<BlobKey, Value>)

  /** `data` is None when the stored text is not JSON at all. */
  datatype Row = Row(layout: string, updated: real, data: Option<Json>)

  /** Reads the channel versions out of a stored checkpoint (LangGraph's serialiser). */
  type Serde = Value -> map<string, Value>

  function StorageOf(storage: map<string, map<string, map<string, Value>>>, thread: string)
    : map<string, map<string, Value>>
  {
    if thread in storage then storage[thread] else map[]
  }

  function WritesOf(writes: map<WriteKey, map<Value, Value>>, thread: string): map<WriteKey, map<Value, Value>> {
    map k | k in writes && k.thread == thread :: writes[k]
  }

  function BlobsOf(blobs: map<BlobKey, Value>, thread: string): map<BlobKey, Value> {
    map k | k in blobs && k.thread == thread :: blobs[k]
  }

  function Of(m: Memory, thread: string): Conversation {
    Conversation(StorageOf(m.storage, thread), WritesOf(m.writes, thread), BlobsOf(m.blobs, thread))
  }

  const NOTHING := Conversation(map[], map[], map[])

  // ------------------------------------------------------------------ the order of checkpoint ids

  /** Text order: ids sort in the order they were made. */
  predicate AtMost(a: string, b: string) {
    a == [] || (b != [] && (a[0] < b[0] || (a[0] == b[0] && AtMost(a[1..], b[1..]))))
  }

  lemma {:induction false} AtMostTotal(a: string, b: string)
    ensures AtMost(a, b) || AtMost(b, a)
  {
    if a == [] || b == [] {
    } else {
      AtMostTotal(a[1..], b[1..]);
    }
  }

  lemma {:induction false} AtMostTransitive(a: string, b: string, c: string)
    requires AtMost(a, b) && AtMost(b, c)
    ensures AtMost(a, c)
  {
    if a == [] {
    } else if a[0] == b[0] == c[0] {
      AtMostTransitive(a[1..], b[1..], c[1..]);
    }
  }

  lemma {:induction false} AtMostAntisymmetric(a: string, b: string)
    requires AtMost(a, b) && AtMost(b, a)
    ensures a == b
  {
    if a == [] || b == [] {
    } else {
      AtMostAntisymmetric(a[1..], b[1..]);
      assert a == [a[0]] + a[1..] && b == [b[0]] + b[1..];
    }
  }

  /** Two ids are alike before a place and differ there, the first with the smaller character. */
  predicate SmallerAt(a: string, b: string, i: nat) {
    i < |a| && i < |b| && a[..i] == b[..i] && a[i] < b[i]
  }

  lemma StartsNoLater(a: string, b: string, i: nat)
    requires SmallerAt(a, b, i)
    ensures a[0] <= b[0]
  {
    if i > 0 {
      assert a[..i][0] == a[0] && b[..i][0] == b[0];
    }
  }

  /** An id comes no later than another exactly when it is a beginning of it or smaller where they first differ. */
  lemma {:induction false} TextOrderIff(a: string, b: string)
    ensures AtMost(a, b) <==> a <= b || exists i: nat :: SmallerAt(a, b, i)
  {
    if a == [] || b == [] {
    } else if a[0] == b[0] {
      TextOrderIff(a[1..], b[1..]);
      assert a == [a[0]] + a[1..] && b == [b[0]] + b[1..];
      if i: nat :| SmallerAt(a[1..], b[1..], i) {
        assert a[..i + 1] == [a[0]] + a[1..][..i] && b[..i + 1] == [b[0]] + b[1..][..i];
        assert SmallerAt(a, b, i + 1);
      }
      if i: nat :| SmallerAt(a, b, i) {
        assert a[1..][..i - 1] == a[..i][1..] && b[1..][..i - 1] == b[..i][1..];
        assert SmallerAt(a[1..], b[1..], i - 1);
      }
    } else {
      if a[0] < b[0] {
        assert SmallerAt(a, b, 0);
      }
      if i: nat :| SmallerAt(a, b, i) {
        StartsNoLater(a, b, i);
      }
    }
  }

  predicate IsLatest(ids: set<string>, latest: string) {
    latest in ids && forall id :: id in ids ==> AtMost(id, latest)
  }

  lemma {:induction false} LatestExists(ids: set<string>)
    requires ids != {}
    ensures exists latest :: IsLatest(ids, latest)
    decreases |ids|
  {
    var one :| one in ids;
    var rest := ids - {one};
    AtMostTotal(one, one);
    if rest == {} {
      assert ids == {one};
      assert IsLatest(ids, one);
    } else {
      LatestExists(rest);
      var best :| IsLatest(rest, best);
      AtMostTotal(one, best);
      if AtMost(one, best) {
        assert IsLatest(ids, best);
      } else {
        forall id | id in ids ensures AtMost(id, one) {
          if id != one {
            AtMostTransitive(id, best, one);
          }
        }
        assert IsLatest(ids, one);
      }
    }
  }

  lemma LatestIsUnique(ids: set<string>, a: string, b: string)
    requires IsLatest(ids, a) && IsLatest(ids, b)
    ensures a == b
  {
    AtMostAntisymmetric(a, b);
  }

  ghost function Latest(ids: set<string>): (latest: string)
    requires ids != {}
    ensures IsLatest(ids, latest)
  {
    LatestExists(ids);
    var latest :| IsLatest(ids, latest);
    latest
  }

  // ------------------------------------------------------------------ what resuming needs

  /** What LangGraph takes up a paused conversation from, in one namespace. */
  datatype Resume = Resume(checkpoint: Value, writes: map<Value, Value>, channels: map<string, Option<Value>>)

  ghost function ResumeAt(serde: Serde, c: Conversation, thread: string, namespace: string): Option<Resume> {
    if namespace !in c.storage || c.storage[namespace].Keys == {} then None
    else
      var latest := Latest(c.storage[namespace].Keys);
      var versions := serde(c.storage[namespace][latest]);
      var key := WriteKey(thread, namespace, latest);
      Some(Resume(
        c.storage[namespace][latest],
        if key in c.writes then c.writes[key] else map[],
        map channel | channel in versions ::
          Get(c.blobs, BlobKey(thread, namespace, channel, versions[channel]))))
  }

  // ------------------------------------------------------------------ pruning

  ghost predicate HasHistory(c: Conversation, namespace: string) {
    namespace in c.storage && |c.storage[namespace]| > 1
  }

  lemma HistoryIsNotEmpty(m: map<string, Value>)
    ensures |m| > 1 ==> m.Keys != {}
  {
    assert |m| == |m.Keys|;
  }

  ghost predicate StaleWrite(c: Conversation, key: WriteKey) {
    HasHistory(c, key.namespace)
    && (HistoryIsNotEmpty(c.storage[key.namespace]);
        key.checkpoint in c.storage[key.namespace]
        && key.checkpoint != Latest(c.storage[key.namespace].Keys))
  }

  ghost predicate StaleBlob(serde: Serde, c: Conversation, key: BlobKey) {
    HasHistory(c, key.namespace)
    && (HistoryIsNotEmpty(c.storage[key.namespace]);
        var versions := serde(c.storage[key.namespace][Latest(c.storage[key.namespace].Keys)]);
        !(key.channel in versions && versions[key.channel] == key.version))
  }

  ghost function LatestOnly(checkpoints: map<string, Value>): map<string, Value> {
    HistoryIsNotEmpty(checkpoints);
    if |checkpoints| <= 1 then checkpoints
    else map[Latest(checkpoints.Keys) := checkpoints[Latest(checkpoints.Keys)]]
  }

  /** The conversation with the history of these namespaces gone. */
  ghost function PrunedOn(serde: Serde, c: Conversation, namespaces: set<string>): (r: Conversation)
    ensures r.storage.Keys == c.storage.Keys
  {
    Conversation(
      map n | n in c.storage :: if n in namespaces then LatestOnly(c.storage[n]) else c.storage[n],
      map k | k in c.writes && !(k.namespace in namespaces && StaleWrite(c, k)) :: c.writes[k],
      map k | k in c.blobs && !(k.namespace in namespaces && StaleBlob(serde, c, k)) :: c.blobs[k])
  }

  ghost function Pruned(serde: Serde, c: Conversation): Conversation {
    PrunedOn(serde, c, c.storage.Keys)
  }

  lemma SingletonLatest(id: string)
    ensures Latest({id}) == id
  {
    assert Latest({id}) in {id};
  }

  lemma LatestOnlyKeepsLatest(checkpoints: map<string, Value>)
    requires checkpoints.Keys != {}
    ensures LatestOnly(checkpoints).Keys != {}
    ensures Latest(LatestOnly(checkpoints).Keys) == Latest(checkpoints.Keys)
    ensures LatestOnly(checkpoints)[Latest(checkpoints.Keys)] == checkpoints[Latest(checkpoints.Keys)]
  {
    var latest := Latest(checkpoints.Keys);
    if |checkpoints| > 1 {
      assert LatestOnly(checkpoints).Keys == {latest};
      SingletonLatest(latest);
    }
  }

  ghost predicate KeepsWrite(c: Conversation, p: Conversation, key: WriteKey) {
    Get(p.writes, key) == Get(c.writes, key)
  }

  ghost predicate KeepsBlob(c: Conversation, p: Conversation, key: BlobKey) {
    Get(p.blobs, key) == Get(c.blobs, key)
  }

  lemma CurrentWriteStays(serde: Serde, c: Conversation, key: WriteKey)
    requires !StaleWrite(c, key)
    ensures KeepsWrite(c, Pruned(serde, c), key)
  {
    hide StaleWrite, StaleBlob, LatestOnly;
  }

  lemma CurrentBlobStays(serde: Serde, c: Conversation, key: BlobKey)
    requires !StaleBlob(serde, c, key)
    ensures KeepsBlob(c, Pruned(serde, c), key)
  {
    hide StaleWrite, StaleBlob, LatestOnly;
  }

  lemma CurrentIsNotStale(serde: Serde, c: Conversation, thread: string, namespace: string)
    requires namespace in c.storage && c.storage[namespace].Keys != {}
    ensures var latest := Latest(c.storage[namespace].Keys);
            var versions := serde(c.storage[namespace][latest]);
            && !StaleWrite(c, WriteKey(thread, namespace, latest))
            && forall channel | channel in versions ::
                 !StaleBlob(serde, c, BlobKey(thread, namespace, channel, versions[channel]))
  {
  }

  lemma SameResume(serde: Serde, c: Conversation, p: Conversation, thread: string, namespace: string)
    requires namespace in c.storage && c.storage[namespace].Keys != {}
    requires namespace in p.storage && p.storage[namespace].Keys != {}
    requires Latest(p.storage[namespace].Keys) == Latest(c.storage[namespace].Keys)
    requires p.storage[namespace][Latest(c.storage[namespace].Keys)] ==
             c.storage[namespace][Latest(c.storage[namespace].Keys)]
    requires Get(p.writes, WriteKey(thread, namespace, Latest(c.storage[namespace].Keys))) ==
             Get(c.writes, WriteKey(thread, namespace, Latest(c.storage[namespace].Keys)))
    requires var versions := serde(c.storage[namespace][Latest(c.storage[namespace].Keys)]);
             forall channel | channel in versions ::
               KeepsBlob(c, p, BlobKey(thread, namespace, channel, versions[channel]))
    ensures ResumeAt(serde, p, thread, namespace) == ResumeAt(serde, c, thread, namespace)
  {
    hide Latest;
    var r, q := ResumeAt(serde, c, thread, namespace).value, ResumeAt(serde, p, thread, namespace).value;
    assert r.channels == q.channels;
  }

  /** Main result: pruning takes nothing a conversation is resumed from, in any namespace. */
  lemma PruningKeepsTheConversation(serde: Serde, c: Conversation, thread: string, namespace: string)
    ensures ResumeAt(serde, Pruned(serde, c), thread, namespace) == ResumeAt(serde, c, thread, namespace)
  {
    hide StaleWrite, StaleBlob, LatestOnly, Latest;
    var p := Pruned(serde, c);
    if namespace in c.storage {
      assert p.storage[namespace] == LatestOnly(c.storage[namespace]);
      if c.storage[namespace].Keys != {} {
        LatestOnlyKeepsLatest(c.storage[namespace]);
        PrunedKeepsCurrent(serde, c, thread, namespace);
      } else {
        EmptyStays(c.storage[namespace]);
      }
    }
  }

  lemma EmptyStays(checkpoints: map<string, Value>)
    requires checkpoints.Keys == {}
    ensures LatestOnly(checkpoints).Keys == {}
  {
    HistoryIsNotEmpty(checkpoints);
  }

  lemma PrunedKeepsCurrent(serde: Serde, c: Conversation, thread: string, namespace: string)
    requires namespace in c.storage && c.storage[namespace].Keys != {}
    requires var p := Pruned(serde, c);
             && namespace in p.storage && p.storage[namespace].Keys != {}
             && Latest(p.storage[namespace].Keys) == Latest(c.storage[namespace].Keys)
             && p.storage[namespace][Latest(c.storage[namespace].Keys)] ==
                c.storage[namespace][Latest(c.storage[namespace].Keys)]
    ensures ResumeAt(serde, Pruned(serde, c), thread, namespace) == ResumeAt(serde, c, thread, namespace)
  {
    hide StaleWrite, StaleBlob, LatestOnly, PrunedOn, Pruned, ResumeAt, KeepsWrite, KeepsBlob, Get;
    var latest := Latest(c.storage[namespace].Keys);
    var versions := serde(c.storage[namespace][latest]);
    CurrentIsNotStale(serde, c, thread, namespace);
    CurrentWriteStays(serde, c, WriteKey(thread, namespace, latest));
    forall channel | channel in versions
      ensures KeepsBlob(c, Pruned(serde, c), BlobKey(thread, namespace, channel, versions[channel]))
    {
      CurrentBlobStays(serde, c, BlobKey(thread, namespace, channel, versions[channel]));
    }
    KeepsWriteMeans(c, Pruned(serde, c), WriteKey(thread, namespace, latest));
    SameResume(serde, c, Pruned(serde, c), thread, namespace);
  }

  lemma KeepsWriteMeans(c: Conversation, p: Conversation, key: WriteKey)
    requires KeepsWrite(c, p, key)
    ensures Get(p.writes, key) == Get(c.writes, key)
  {
  }

  /** And it does bound what is kept: one checkpoint a namespace. */
  lemma PruningLeavesOne(serde: Serde, c: Conversation, namespace: string)
    requires namespace in c.storage
    ensures |Pruned(serde, c).storage[namespace]| <= 1
    ensures Pruned(serde, c).storage[namespace].Keys <= c.storage[namespace].Keys
  {
    HistoryIsNotEmpty(c.storage[namespace]);
  }

  lemma HistoryOutside(serde: Serde, c: Conversation, namespaces: set<string>, namespace: string)
    requires namespace !in namespaces
    ensures var p := PrunedOn(serde, c, namespaces);
            && HasHistory(p, namespace) == HasHistory(c, namespace)
            && (forall k: WriteKey :: k.namespace == namespace ==> StaleWrite(p, k) == StaleWrite(c, k))
            && (forall k: BlobKey :: k.namespace == namespace ==> StaleBlob(serde, p, k) == StaleBlob(serde, c, k))
  {
    var p := PrunedOn(serde, c, namespaces);
    assert namespace in c.storage ==> p.storage[namespace] == c.storage[namespace];
  }

  lemma HistoryOutsideAll(serde: Serde, c: Conversation, namespaces: set<string>)
    ensures var p := PrunedOn(serde, c, namespaces);
            && (forall k: WriteKey :: k.namespace !in namespaces ==> StaleWrite(p, k) == StaleWrite(c, k))
            && (forall k: BlobKey :: k.namespace !in namespaces ==> StaleBlob(serde, p, k) == StaleBlob(serde, c, k))
  {
    hide *;
    var p := PrunedOn(serde, c, namespaces);
    forall k: WriteKey | k.namespace !in namespaces ensures StaleWrite(p, k) == StaleWrite(c, k) {
      HistoryOutside(serde, c, namespaces, k.namespace);
    }
    forall k: BlobKey | k.namespace !in namespaces ensures StaleBlob(serde, p, k) == StaleBlob(serde, c, k) {
      HistoryOutside(serde, c, namespaces, k.namespace);
    }
  }

  /** The namespaces may be pruned one at a time. */
  lemma PruneOneMore(serde: Serde, c: Conversation, namespaces: set<string>, namespace: string)
    requires namespace !in namespaces
    ensures PrunedOn(serde, PrunedOn(serde, c, namespaces), {namespace})
         == PrunedOn(serde, c, namespaces + {namespace})
  {
    hide StaleWrite, StaleBlob, LatestOnly;
    var p := PrunedOn(serde, c, namespaces);
    HistoryOutsideAll(serde, c, namespaces);
    var one, all := PrunedOn(serde, p, {namespace}), PrunedOn(serde, c, namespaces + {namespace});
    assert one.storage == all.storage;
    assert one.writes == all.writes;
    assert one.blobs == all.blobs;
  }

  lemma NothingToPrune(serde: Serde, c: Conversation, namespace: string)
    requires !HasHistory(c, namespace)
    ensures PrunedOn(serde, c, {namespace}) == c
  {
    var p := PrunedOn(serde, c, {namespace});
    assert p.storage == c.storage && p.writes == c.writes && p.blobs == c.blobs;
  }

  ghost function OldWrites(thread: string, namespace: string, ids: set<string>): set<WriteKey> {
    set id | id in ids :: WriteKey(thread, namespace, id)
  }

  function OldBlobs(m: Memory, thread: string, namespace: string, versions: map<string, Value>): set<BlobKey> {
    set k | k in m.blobs && k.thread == thread && k.namespace == namespace
            && !(k.channel in versions && versions[k.channel] == k.version)
  }

  /** The memory after the loop body for one namespace with a history. */
  ghost function NamespacePruned(serde: Serde, m: Memory, thread: string, namespace: string, latest: string): Memory
    requires thread in m.storage && namespace in m.storage[thread] && latest in m.storage[thread][namespace]
  {
    var checkpoints := m.storage[thread][namespace];
    Memory(
      m.storage[thread := m.storage[thread][namespace := map[latest := checkpoints[latest]]]],
      m.writes - OldWrites(thread, namespace, checkpoints.Keys - {latest}),
      m.blobs - OldBlobs(m, thread, namespace, serde(checkpoints[latest])))
  }

  ghost predicate LatestOf(m: Memory, thread: string, namespace: string, latest: string) {
    && thread in m.storage && namespace in m.storage[thread] && latest in m.storage[thread][namespace]
    && HasHistory(Of(m, thread), namespace)
    && IsLatest(m.storage[thread][namespace].Keys, latest)
  }

  lemma LatestOfIs(m: Memory, thread: string, namespace: string, latest: string)
    requires LatestOf(m, thread, namespace, latest)
    ensures latest in m.storage[thread][namespace]
    ensures m.storage[thread][namespace].Keys != {}
    ensures latest == Latest(m.storage[thread][namespace].Keys)
    ensures LatestOnly(m.storage[thread][namespace]) == map[latest := m.storage[thread][namespace][latest]]
  {
    var ids := m.storage[thread][namespace].Keys;
    assert latest in ids;
    LatestIsUnique(ids, latest, Latest(ids));
  }

  lemma StorageAfter(serde: Serde, m: Memory, thread: string, namespace: string, latest: string)
    requires LatestOf(m, thread, namespace, latest)
    ensures latest in m.storage[thread][namespace]
    ensures Of(NamespacePruned(serde, m, thread, namespace, latest), thread).storage
         == PrunedOn(serde, Of(m, thread), {namespace}).storage
  {
    LatestOfIs(m, thread, namespace, latest);
    hide LatestOnly, Latest, IsLatest, StaleWrite, StaleBlob, OldWrites, OldBlobs;
  }

  lemma StaleAt(serde: Serde, m: Memory, thread: string, namespace: string, latest: string)
    requires LatestOf(m, thread, namespace, latest)
    ensures latest in m.storage[thread][namespace]
    ensures var checkpoints := m.storage[thread][namespace];
            && (forall k: WriteKey :: k.namespace == namespace ==>
                 (StaleWrite(Of(m, thread), k) <==> k.checkpoint in checkpoints && k.checkpoint != latest))
            && (forall k: BlobKey :: k.namespace == namespace ==>
                 (StaleBlob(serde, Of(m, thread), k) <==>
                 !(k.channel in serde(checkpoints[latest]) && serde(checkpoints[latest])[k.channel] == k.version)))
  {
    LatestOfIs(m, thread, namespace, latest);
    hide LatestOnly, Latest, IsLatest;
  }

  lemma WritesAfter(serde: Serde, m: Memory, thread: string, namespace: string, latest: string)
    requires LatestOf(m, thread, namespace, latest)
    ensures latest in m.storage[thread][namespace]
    ensures Of(NamespacePruned(serde, m, thread, namespace, latest), thread).writes
         == PrunedOn(serde, Of(m, thread), {namespace}).writes
  {
    StaleAt(serde, m, thread, namespace, latest);
    hide LatestOnly, LatestOf, StaleWrite, StaleBlob, OldBlobs;
    OldWritesAre(thread, namespace, m.storage[thread][namespace].Keys - {latest});
    hide OldWrites;
  }

  lemma OldWritesAre(thread: string, namespace: string, ids: set<string>)
    ensures forall k: WriteKey ::
              k in OldWrites(thread, namespace, ids) <==>
              k.thread == thread && k.namespace == namespace && k.checkpoint in ids
  {
    forall k: WriteKey | k.thread == thread && k.namespace == namespace && k.checkpoint in ids
      ensures k in OldWrites(thread, namespace, ids)
    {
      assert k == WriteKey(thread, namespace, k.checkpoint);
    }
  }

  lemma BlobsAfter(serde: Serde, m: Memory, thread: string, namespace: string, latest: string)
    requires LatestOf(m, thread, namespace, latest)
    ensures latest in m.storage[thread][namespace]
    ensures Of(NamespacePruned(serde, m, thread, namespace, latest), thread).blobs
         == PrunedOn(serde, Of(m, thread), {namespace}).blobs
  {
    StaleAt(serde, m, thread, namespace, latest);
    hide LatestOnly, LatestOf, StaleWrite, StaleBlob, OldWrites;
  }

  lemma OthersAfter(serde: Serde, m: Memory, thread: string, namespace: string, latest: string, other: string)
    requires LatestOf(m, thread, namespace, latest) && other != thread
    ensures latest in m.storage[thread][namespace]
    ensures Of(NamespacePruned(serde, m, thread, namespace, latest), other) == Of(m, other)
  {
    LatestOfIs(m, thread, namespace, latest);
    hide LatestOf, Latest, LatestOnly;
    OldWritesAre(thread, namespace, m.storage[thread][namespace].Keys - {latest});
    hide OldWrites;
    var got, want := Of(NamespacePruned(serde, m, thread, namespace, latest), other), Of(m, other);
    assert got.storage == want.storage && got.writes == want.writes && got.blobs == want.blobs;
  }

  /** One round of the loop in `_keep_latest`. */
  lemma NamespacePrunedIs(serde: Serde, m: Memory, thread: string, namespace: string, latest: string)
    requires LatestOf(m, thread, namespace, latest)
    ensures latest in m.storage[thread][namespace]
    ensures Of(NamespacePruned(serde, m, thread, namespace, latest), thread)
         == PrunedOn(serde, Of(m, thread), {namespace})
    ensures forall t :: t != thread ==>
              Of(NamespacePruned(serde, m, thread, namespace, latest), t) == Of(m, t)
  {
    hide NamespacePruned, PrunedOn, Of, HasHistory, IsLatest;
    StorageAfter(serde, m, thread, namespace, latest);
    WritesAfter(serde, m, thread, namespace, latest);
    BlobsAfter(serde, m, thread, namespace, latest);
    forall t | t != thread
      ensures Of(NamespacePruned(serde, m, thread, namespace, latest), t) == Of(m, t)
    {
      OthersAfter(serde, m, thread, namespace, latest, t);
    }
  }

  // ------------------------------------------------------------------ dicts as lists of pairs

  /** The pairs of a dict in some order, each once. */
  ghost predicate Lists<K, V>(pairs: seq<(K, V)>, m: map<K, V>) {
    && (forall i, j :: 0 <= i < j < |pairs| ==> pairs[i].0 != pairs[j].0)
    && (forall p :: p in pairs ==> p.0 in m && m[p.0] == p.1)
    && (forall k :: k in m ==> (k, m[k]) in pairs)
  }

  ghost predicate ListsNested<K, A, B>(pairs: seq<(K, seq<(A, B)>)>, m: map<K, map<A, B>>) {
    && (forall i, j :: 0 <= i < j < |pairs| ==> pairs[i].0 != pairs[j].0)
    && (forall p :: p in pairs ==> p.0 in m && Lists(p.1, m[p.0]))
    && (forall k :: k in m ==> exists p :: p in pairs && p.0 == k)
  }

  /** Assigning the pairs one after the other. */
  function FromPairs<K, V>(pairs: seq<(K, V)>): map<K, V> {
    if pairs == [] then map[]
    else FromPairs(pairs[..|pairs| - 1])[pairs[|pairs| - 1].0 := pairs[|pairs| - 1].1]
  }

  function Updated<K, A, B>(m: map<K, map<A, B>>, key: K, pairs: seq<(A, B)>): map<K, map<A, B>> {
    m[key := (if key in m then m[key] else map[]) + FromPairs(pairs)]
  }

  /** `store[key].update(pairs)` for each: a key with no pairs is made all the same. */
  function FromNested<K, A, B>(pairs: seq<(K, seq<(A, B)>)>): map<K, map<A, B>> {
    if pairs == [] then map[]
    else Updated(FromNested(pairs[..|pairs| - 1]), pairs[|pairs| - 1].0, pairs[|pairs| - 1].1)
  }

  /** `store[key][a] = b` for each pair: a key with no pairs is not made. */
  function FromEntries<K, A, B>(pairs: seq<(K, seq<(A, B)>)>): map<K, map<A, B>> {
    if pairs == [] then map[]
    else if pairs[|pairs| - 1].1 == [] then FromEntries(pairs[..|pairs| - 1])
    else Updated(FromEntries(pairs[..|pairs| - 1]), pairs[|pairs| - 1].0, pairs[|pairs| - 1].1)
  }

  function NonEmpty<K, A, B>(m: map<K, map<A, B>>): map<K, map<A, B>> {
    map k | k in m && m[k] != map[] :: m[k]
  }

  lemma {:induction false} ListedComesBack<K, V>(pairs: seq<(K, V)>, m: map<K, V>)
    requires Lists(pairs, m)
    ensures FromPairs(pairs) == m
    ensures pairs == [] <==> m == map[]
  {
    if pairs == [] {
    } else {
      var n := |pairs| - 1;
      var rest := m - {pairs[n].0};
      forall k | k in rest ensures (k, rest[k]) in pairs[..n] {
        var i :| 0 <= i < |pairs| && pairs[i] == (k, m[k]);
        assert pairs[..n][i] == (k, rest[k]);
      }
      ListedComesBack(pairs[..n], rest);
      assert pairs[n] in pairs;
    }
  }

  lemma ListsButLast<K, A, B>(pairs: seq<(K, seq<(A, B)>)>, m: map<K, map<A, B>>)
    requires pairs != [] && ListsNested(pairs, m)
    ensures ListsNested(pairs[..|pairs| - 1], m - {pairs[|pairs| - 1].0})
    ensures pairs[|pairs| - 1].0 in m && Lists(pairs[|pairs| - 1].1, m[pairs[|pairs| - 1].0])
  {
    hide Lists;
    var n := |pairs| - 1;
    var rest := m - {pairs[n].0};
    assert pairs[n] in pairs;
    forall k | k in rest ensures exists p :: p in pairs[..n] && p.0 == k {
      var i :| 0 <= i < |pairs| && pairs[i].0 == k;
      assert pairs[..n][i] in pairs[..n];
    }
  }

  lemma PutBack<K, A, B>(m: map<K, map<A, B>>, key: K, pairs: seq<(A, B)>)
    requires key in m && FromPairs(pairs) == m[key]
    ensures Updated(m - {key}, key, pairs) == m
    ensures NonEmpty(m) == if m[key] == map[] then NonEmpty(m - {key}) else Updated(NonEmpty(m - {key}), key, pairs)
  {
    hide FromPairs;
    assert map[] + m[key] == m[key];
  }

  lemma {:induction false} NestedComesBack<K, A, B>(pairs: seq<(K, seq<(A, B)>)>, m: map<K, map<A, B>>)
    requires ListsNested(pairs, m)
    ensures FromNested(pairs) == m
    ensures FromEntries(pairs) == NonEmpty(m)
  {
    if pairs == [] {
      assert m == map[];
    } else {
      hide Lists, ListsNested, NonEmpty, FromPairs;
      var n := |pairs| - 1;
      var key := pairs[n].0;
      ListsButLast(pairs, m);
      NestedComesBack(pairs[..n], m - {key});
      ListedComesBack(pairs[n].1, m[key]);
      PutBack(m, key, pairs[n].1);
    }
  }

  // ------------------------------------------------------------------ a row of the file

  /** The pairs of a conversation's three dicts, as they are written and read. */
  datatype Listing = Listing(
    storage: seq<(string, seq<(string, Value)>)>,
    writes: seq<(WriteKey, seq<(Value, Value)>)>,
    blobs: seq<(BlobKey, Value)>)

  function Mapped<A, B>(f: A -> B, items: seq<A>): (r: seq<B>)
    ensures |r| == |items|
    ensures forall i :: 0 <= i < |items| ==> r[i] == f(items[i])
  {
    seq(|items|, i requires 0 <= i < |items| => f(items[i]))
  }

  /** Every item read, or None when one cannot be. */
  function Traverse<A, B>(f: A -> Option<B>, items: seq<A>): (r: Option<seq<B>>)
    ensures r.Some? <==> forall i :: 0 <= i < |items| ==> f(items[i]).Some?
    ensures r.Some? ==> |r.value| == |items| && forall i :: 0 <= i < |items| ==> f(items[i]) == Some(r.value[i])
  {
    if items == [] then Some([])
    else
      var first, rest := f(items[0]), Traverse(f, items[1..]);
      assert forall i :: 0 < i < |items| ==> items[i] == items[1..][i - 1];
      if first.Some? && rest.Some? then Some([first.value] + rest.value) else None
  }

  lemma TraverseUndoesMapped<A, B>(read: B -> Option<A>, show: A -> B, items: seq<A>)
    requires forall i :: 0 <= i < |items| ==> read(show(items[i])) == Some(items[i])
    ensures Traverse(read, Mapped(show, items)) == Some(items)
  {
    var r := Traverse(read, Mapped(show, items));
    var printed := Mapped(show, items);
    assert forall i :: 0 <= i < |printed| ==> read(printed[i]) == Some(items[i]);
    assert r.value == items;
  }

  function Word(s: string): Value {
    Plain(Text(s))
  }

  function ReadWord(v: Value): Option<string> {
    if v.Plain? && v.scalar.Text? then Some(v.scalar.s) else None
  }

  function Parts(v: Value): Option<seq<Value>> {
    match v
    case Tuple(parts) => Some(parts)
    case List(items) => Some(items)
    case _ => None
  }

  function PrintCheckpoint(p: (string, Value)): Entry {
    Entry(Word(p.0), p.1)
  }

  function ReadCheckpoint(e: Entry): Option<(string, Value)> {
    if ReadWord(e.key).Some? then Some((ReadWord(e.key).value, e.value)) else None
  }

  function PrintNamespace(p: (string, seq<(string, Value)>)): Entry {
    Entry(Word(p.0), Dict(Mapped(PrintCheckpoint, p.1)))
  }

  function ReadNamespace(e: Entry): Option<(string, seq<(string, Value)>)> {
    if ReadWord(e.key).Some? && e.value.Dict? then
      var checkpoints := Traverse(ReadCheckpoint, e.value.entries);
      if checkpoints.Some? then Some((ReadWord(e.key).value, checkpoints.value)) else None
    else None
  }

  function PrintPut(p: (Value, Value)): Value {
    Tuple([p.0, p.1])
  }

  function ReadPut(v: Value): Option<(Value, Value)> {
    var parts := Parts(v);
    if parts.Some? && |parts.value| == 2 && Hashable(parts.value[0]) then Some((parts.value[0], parts.value[1]))
    else None
  }

  function PrintWrite(p: (WriteKey, seq<(Value, Value)>)): Value {
    List([Word(p.0.namespace), Word(p.0.checkpoint), List(Mapped(PrintPut, p.1))])
  }

  function ReadWrite(thread: string, v: Value): Option<(WriteKey, seq<(Value, Value)>)> {
    var parts := Parts(v);
    if parts.Some? && |parts.value| == 3 && ReadWord(parts.value[0]).Some? && ReadWord(parts.value[1]).Some?
       && Parts(parts.value[2]).Some? then
      var puts := Traverse(ReadPut, Parts(parts.value[2]).value);
      if puts.Some? then
        Some((WriteKey(thread, ReadWord(parts.value[0]).value, ReadWord(parts.value[1]).value), puts.value))
      else None
    else None
  }

  function PrintBlob(p: (BlobKey, Value)): Value {
    List([Word(p.0.namespace), Word(p.0.channel), p.0.version, p.1])
  }

  function ReadBlob(thread: string, v: Value): Option<(BlobKey, Value)> {
    var parts := Parts(v);
    if parts.Some? && |parts.value| == 4 && ReadWord(parts.value[0]).Some? && ReadWord(parts.value[1]).Some?
       && Hashable(parts.value[2]) then
      Some((BlobKey(thread, ReadWord(parts.value[0]).value, ReadWord(parts.value[1]).value, parts.value[2]),
            parts.value[3]))
    else None
  }

  function StorageValue(l: Listing): Value {
    Dict(Mapped(PrintNamespace, l.storage))
  }

  function WritesValue(l: Listing): Value {
    List(Mapped(PrintWrite, l.writes))
  }

  function BlobsValue(l: Listing): Value {
    List(Mapped(PrintBlob, l.blobs))
  }

  const STORAGE := "storage"
  const WRITES := "writes"
  const BLOBS := "blobs"

  function PrintRow(b64: Base64, l: Listing): Json {
    Object([
      Member(STORAGE, Encode(b64, StorageValue(l))),
      Member(WRITES, Encode(b64, WritesValue(l))),
      Member(BLOBS, Encode(b64, BlobsValue(l)))])
  }

  /** `_decode(row[name])`, None where it raises. */
  function Field(b64: Base64, data: Json, name: string): Option<Value> {
    if data.Object? && Lookup(data.members, name).Some? then Decode(b64, Lookup(data.members, name).value)
    else None
  }

  function ReadStorage(v: Option<Value>): Option<seq<(string, seq<(string, Value)>)>> {
    if v.Some? && v.value.Dict? then Traverse(ReadNamespace, v.value.entries) else None
  }

  function ReadWrites(thread: string, v: Option<Value>): Option<seq<(WriteKey, seq<(Value, Value)>)>> {
    if v.Some? && Parts(v.value).Some? then Traverse(w => ReadWrite(thread, w), Parts(v.value).value) else None
  }

  function ReadBlobs(thread: string, v: Option<Value>): Option<seq<(BlobKey, Value)>> {
    if v.Some? && Parts(v.value).Some? then Traverse(b => ReadBlob(thread, b), Parts(v.value).value) else None
  }

  function ReadRow(b64: Base64, thread: string, data: Json): Option<Listing> {
    var storage := ReadStorage(Field(b64, data, STORAGE));
    var writes := ReadWrites(thread, Field(b64, data, WRITES));
    var blobs := ReadBlobs(thread, Field(b64, data, BLOBS));
    if storage.Some? && writes.Some? && blobs.Some? then
      Some(Listing(storage.value, writes.value, blobs.value))
    else None
  }

  // ------------------------------------------------------------------ a row read back

  ghost predicate CheckpointFits(p: (string, Value)) {
    WellFormed(p.1)
  }

  ghost predicate NamespaceFits(p: (string, seq<(string, Value)>)) {
    && (forall i, j :: 0 <= i < j < |p.1| ==> p.1[i].0 != p.1[j].0)
    && (forall i :: 0 <= i < |p.1| ==> CheckpointFits(p.1[i]))
  }

  ghost predicate PutFits(p: (Value, Value)) {
    Hashable(p.0) && WellFormed(p.0) && WellFormed(p.1)
  }

  ghost predicate WriteFits(thread: string, p: (WriteKey, seq<(Value, Value)>)) {
    p.0.thread == thread && forall i :: 0 <= i < |p.1| ==> PutFits(p.1[i])
  }

  ghost predicate BlobFits(thread: string, p: (BlobKey, Value)) {
    p.0.thread == thread && Hashable(p.0.version) && WellFormed(p.0.version) && WellFormed(p.1)
  }

  /** A listing of one thread's proper Python values. */
  ghost predicate ListingFits(thread: string, l: Listing) {
    && (forall i, j :: 0 <= i < j < |l.storage| ==> l.storage[i].0 != l.storage[j].0)
    && (forall i :: 0 <= i < |l.storage| ==> NamespaceFits(l.storage[i]))
    && (forall i :: 0 <= i < |l.writes| ==> WriteFits(thread, l.writes[i]))
    && (forall i :: 0 <= i < |l.blobs| ==> BlobFits(thread, l.blobs[i]))
  }

  lemma NamespaceComesBack(p: (string, seq<(string, Value)>))
    requires NamespaceFits(p)
    ensures EntryWellFormed(PrintNamespace(p))
    ensures ReadNamespace(PrintNamespace(p)) == Some(p)
  {
    var entries := Mapped(PrintCheckpoint, p.1);
    TraverseUndoesMapped(ReadCheckpoint, PrintCheckpoint, p.1);
    assert DistinctKeys(entries);
    forall e | e in entries ensures EntryWellFormed(e) {
      var i :| 0 <= i < |entries| && entries[i] == e;
      assert CheckpointFits(p.1[i]);
    }
  }

  lemma PutComesBack(p: (Value, Value))
    requires PutFits(p)
    ensures WellFormed(PrintPut(p)) && ReadPut(PrintPut(p)) == Some(p)
  {
  }

  lemma ListIsWellFormed(items: seq<Value>)
    requires forall i :: 0 <= i < |items| ==> WellFormed(items[i])
    ensures WellFormed(List(items))
  {
  }

  lemma WriteComesBack(thread: string, p: (WriteKey, seq<(Value, Value)>))
    requires WriteFits(thread, p)
    ensures WellFormed(PrintWrite(p))
    ensures ReadWrite(thread, PrintWrite(p)) == Some(p)
  {
    hide PutFits, WellFormed, Hashable, PrintPut, ReadPut;
    forall i | 0 <= i < |p.1|
      ensures WellFormed(PrintPut(p.1[i])) && ReadPut(PrintPut(p.1[i])) == Some(p.1[i])
    {
      PutComesBack(p.1[i]);
    }
    TraverseUndoesMapped(ReadPut, PrintPut, p.1);
    ListIsWellFormed(Mapped(PrintPut, p.1));
    WordIsWellFormed(p.0.namespace);
    WordIsWellFormed(p.0.checkpoint);
    ListIsWellFormed(PrintWrite(p).items);
  }

  lemma WordIsWellFormed(s: string)
    ensures WellFormed(Word(s))
  {
  }

  lemma BlobComesBack(thread: string, p: (BlobKey, Value))
    requires BlobFits(thread, p)
    ensures WellFormed(PrintBlob(p))
    ensures ReadBlob(thread, PrintBlob(p)) == Some(p)
  {
    ListIsWellFormed(PrintBlob(p).items);
  }

  lemma StorageComesBack(thread: string, l: Listing)
    requires ListingFits(thread, l)
    ensures WellFormed(StorageValue(l))
    ensures ReadStorage(Some(StorageValue(l))) == Some(l.storage)
  {
    hide NamespaceFits, EntryWellFormed, PrintNamespace, ReadNamespace, WriteFits, BlobFits;
    forall i | 0 <= i < |l.storage|
      ensures ReadNamespace(PrintNamespace(l.storage[i])) == Some(l.storage[i])
      ensures EntryWellFormed(PrintNamespace(l.storage[i]))
    {
      NamespaceComesBack(l.storage[i]);
    }
    TraverseUndoesMapped(ReadNamespace, PrintNamespace, l.storage);
    NamespaceKeysDistinct(l.storage);
  }

  lemma NamespaceKeysDistinct(pairs: seq<(string, seq<(string, Value)>)>)
    requires forall i, j :: 0 <= i < j < |pairs| ==> pairs[i].0 != pairs[j].0
    ensures DistinctKeys(Mapped(PrintNamespace, pairs))
  {
  }

  lemma WritesComeBack(thread: string, l: Listing)
    requires ListingFits(thread, l)
    ensures WellFormed(WritesValue(l))
    ensures ReadWrites(thread, Some(WritesValue(l))) == Some(l.writes)
  {
    hide NamespaceFits, WellFormed, PrintWrite, ReadWrite, WriteFits, BlobFits;
    forall i | 0 <= i < |l.writes|
      ensures ReadWrite(thread, PrintWrite(l.writes[i])) == Some(l.writes[i])
      ensures WellFormed(PrintWrite(l.writes[i]))
    {
      WriteComesBack(thread, l.writes[i]);
    }
    TraverseUndoesMapped(w => ReadWrite(thread, w), PrintWrite, l.writes);
    ListIsWellFormed(Mapped(PrintWrite, l.writes));
  }

  lemma BlobsComeBack(thread: string, l: Listing)
    requires ListingFits(thread, l)
    ensures WellFormed(BlobsValue(l))
    ensures ReadBlobs(thread, Some(BlobsValue(l))) == Some(l.blobs)
  {
    hide NamespaceFits, WellFormed, PrintBlob, ReadBlob, WriteFits, BlobFits;
    forall i | 0 <= i < |l.blobs|
      ensures ReadBlob(thread, PrintBlob(l.blobs[i])) == Some(l.blobs[i])
      ensures WellFormed(PrintBlob(l.blobs[i]))
    {
      BlobComesBack(thread, l.blobs[i]);
    }
    TraverseUndoesMapped(b => ReadBlob(thread, b), PrintBlob, l.blobs);
    ListIsWellFormed(Mapped(PrintBlob, l.blobs));
  }

  lemma FieldsOf(b64: Base64, storage: Json, writes: Json, blobs: Json)
    ensures var members := [Member(STORAGE, storage), Member(WRITES, writes), Member(BLOBS, blobs)];
            && Lookup(members, STORAGE) == Some(storage)
            && Lookup(members, WRITES) == Some(writes)
            && Lookup(members, BLOBS) == Some(blobs)
  {
    var members := [Member(STORAGE, storage), Member(WRITES, writes), Member(BLOBS, blobs)];
    assert members[..2] == [Member(STORAGE, storage), Member(WRITES, writes)];
    assert members[..2][..1] == [Member(STORAGE, storage)];
    assert STORAGE[0] == 's' && WRITES[0] == 'w' && BLOBS[0] == 'b';
    LookupTagged(STORAGE, storage, STORAGE);
    assert Lookup(members[..2], STORAGE) == Some(storage);
  }

  /** The row reads as the pairs that were written into it. */
  lemma RowComesBack(b64: Base64, thread: string, l: Listing)
    requires ReadsBack(b64) && ListingFits(thread, l)
    ensures ReadRow(b64, thread, PrintRow(b64, l)) == Some(l)
  {
    hide ListingFits, StorageValue, WritesValue, BlobsValue, ReadStorage, ReadWrites, ReadBlobs, WellFormed,
      Encode, Decode, Lookup, ReadsBack;
    StorageComesBack(thread, l);
    WritesComeBack(thread, l);
    BlobsComeBack(thread, l);
    DecodeUndoesEncode(b64, StorageValue(l));
    DecodeUndoesEncode(b64, WritesValue(l));
    DecodeUndoesEncode(b64, BlobsValue(l));
    FieldsOf(b64, Encode(b64, StorageValue(l)), Encode(b64, WritesValue(l)), Encode(b64, BlobsValue(l)));
  }

  // ------------------------------------------------------------------ a conversation and its row

  ghost predicate ListsConversation(l: Listing, c: Conversation) {
    ListsNested(l.storage, c.storage) && ListsNested(l.writes, c.writes) && Lists(l.blobs, c.blobs)
  }

  /** A row that `persist` may write for the conversation (a dict may be in any order). */
  ghost predicate IsRowOf(b64: Base64, data: Json, c: Conversation) {
    exists l :: ListsConversation(l, c) && data == PrintRow(b64, l)
  }

  /** What `_restore` puts into the memory. */
  function Collected(l: Listing): Conversation {
    Conversation(FromNested(l.storage), FromEntries(l.writes), FromPairs(l.blobs))
  }

  /** Pending writes with no entry at all are not made again; reading gives the same empty dict. */
  function WithoutEmpty(c: Conversation): Conversation {
    Conversation(c.storage, NonEmpty(c.writes), c.blobs)
  }

  /** The conversation of one thread, of proper Python values. */
  ghost predicate ConversationFits(thread: string, c: Conversation) {
    && (forall n, id :: n in c.storage && id in c.storage[n] ==> WellFormed(c.storage[n][id]))
    && (forall k :: k in c.writes ==> k.thread == thread)
    && (forall k, x :: k in c.writes && x in c.writes[k] ==> PutFits((x, c.writes[k][x])))
    && (forall k :: k in c.blobs ==> BlobFits(thread, (k, c.blobs[k])))
  }

  lemma ListingOfFits(thread: string, l: Listing, c: Conversation)
    requires ListsConversation(l, c) && ConversationFits(thread, c)
    ensures ListingFits(thread, l)
  {
    hide PutFits, BlobFits;
    forall i | 0 <= i < |l.storage| ensures NamespaceFits(l.storage[i]) {
      var p := l.storage[i];
      assert p in l.storage;
      assert Lists(p.1, c.storage[p.0]);
      forall j | 0 <= j < |p.1| ensures CheckpointFits(p.1[j]) {
        assert p.1[j] in p.1;
      }
    }
    forall i | 0 <= i < |l.writes| ensures WriteFits(thread, l.writes[i]) {
      var p := l.writes[i];
      assert p in l.writes;
      assert Lists(p.1, c.writes[p.0]);
      forall j | 0 <= j < |p.1| ensures PutFits(p.1[j]) {
        assert p.1[j] in p.1;
        assert p.1[j] == (p.1[j].0, c.writes[p.0][p.1[j].0]);
      }
    }
    forall i | 0 <= i < |l.blobs| ensures BlobFits(thread, l.blobs[i]) {
      assert l.blobs[i] in l.blobs;
      assert l.blobs[i] == (l.blobs[i].0, c.blobs[l.blobs[i].0]);
    }
  }

  /** Main result: whatever order the dicts were written in, the row gives the conversation back. */
  lemma ConversationComesBack(b64: Base64, thread: string, data: Json, c: Conversation)
    requires ReadsBack(b64) && ConversationFits(thread, c) && IsRowOf(b64, data, c)
    ensures ReadRow(b64, thread, data).Some?
    ensures Collected(ReadRow(b64, thread, data).value) == WithoutEmpty(c)
  {
    hide ConversationFits, ListingFits, ReadsBack, PrintRow, ReadRow, ListsNested, Lists;
    var l :| ListsConversation(l, c) && data == PrintRow(b64, l);
    ListingOfFits(thread, l, c);
    RowComesBack(b64, thread, l);
    NestedComesBack(l.storage, c.storage);
    NestedComesBack(l.writes, c.writes);
    ListedComesBack(l.blobs, c.blobs);
  }

  lemma EmptyWritesDoNotMatter(serde: Serde, c: Conversation, thread: string, namespace: string)
    ensures ResumeAt(serde, WithoutEmpty(c), thread, namespace) == ResumeAt(serde, c, thread, namespace)
  {
    var w := WithoutEmpty(c);
    if namespace in c.storage && c.storage[namespace].Keys != {} {
      hide Latest;
      assert ResumeAt(serde, w, thread, namespace).value.channels == ResumeAt(serde, c, thread, namespace).value.channels;
    }
  }

  lemma PrunedFits(serde: Serde, thread: string, c: Conversation)
    requires ConversationFits(thread, c)
    ensures ConversationFits(thread, Pruned(serde, c))
  {
    hide StaleWrite, StaleBlob, PutFits, BlobFits, WellFormed;
    var p := Pruned(serde, c);
    forall n, id | n in p.storage && id in p.storage[n] ensures WellFormed(p.storage[n][id]) {
      assert id in c.storage[n] && p.storage[n][id] == c.storage[n][id] by {
        HistoryIsNotEmpty(c.storage[n]);
      }
    }
  }

  /** The conversation a row stands for when the service starts, None where the row is dropped. */
  function ReadBack(b64: Base64, layout: string, cutoff: real, thread: string, row: Row): Option<Conversation> {
    if row.updated < cutoff || row.layout != layout || row.data.None? then None
    else
      var l := ReadRow(b64, thread, row.data.value);
      if l.Some? then Some(Collected(l.value)) else None
  }

  /**
   * Main result: a conversation pruned, written, and read back within its age limit by a service with
   * the same layout resumes from exactly what it would have resumed from before.
   */
  lemma RestartKeepsTheConversation(b64: Base64, serde: Serde, layout: string, cutoff: real, thread: string,
                                    row: Row, c: Conversation, namespace: string)
    requires ReadsBack(b64) && ConversationFits(thread, c)
    requires row.layout == layout && row.updated >= cutoff
    requires row.data.Some? && IsRowOf(b64, row.data.value, Pruned(serde, c))
    ensures var back := ReadBack(b64, layout, cutoff, thread, row);
            && back.Some?
            && ResumeAt(serde, back.value, thread, namespace) == ResumeAt(serde, c, thread, namespace)
            && back.value.storage == Pruned(serde, c).storage
            && back.value.blobs == Pruned(serde, c).blobs
  {
    hide ConversationFits, IsRowOf, ReadRow, Collected, Pruned, ResumeAt, ReadsBack;
    PrunedFits(serde, thread, c);
    ConversationComesBack(b64, thread, row.data.value, Pruned(serde, c));
    EmptyWritesDoNotMatter(serde, Pruned(serde, c), thread, namespace);
    PruningKeepsTheConversation(serde, c, thread, namespace);
  }
}
