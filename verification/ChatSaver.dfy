/**
 * The savers of chat/store.py as an object whose dicts and rows are updated in place. Every method is
 * tied to the functions of ChatStore on what the object holds of one thread (`Of(Held(), thread)`).
 */
module ChatSaver {
  import opened Common
  import opened CheckpointCodec
  import opened ChatStore

  /** The items of a dict, in some order. */
  method ItemsOf<K(==), V>(m: map<K, V>) returns (pairs: seq<(K, V)>)
    ensures Lists(pairs, m)
  {
    pairs := [];
    var todo := m.Keys;
    while todo != {}
      invariant todo <= m.Keys
      invariant Lists(pairs, m - todo)
      decreases |todo|
    {
      var k :| k in todo;
      ghost var before, seen := m - todo, pairs;
      todo := todo - {k};
      pairs := pairs + [(k, m[k])];
      assert m - todo == before[k := m[k]];
      OneMoreListed(seen, before, k, m[k]);
    }
    assert m - todo == m;
  }

  lemma OneMoreListed<K, V>(pairs: seq<(K, V)>, m: map<K, V>, k: K, v: V)
    requires Lists(pairs, m) && k !in m
    ensures Lists(pairs + [(k, v)], m[k := v])
  {
    var all := pairs + [(k, v)];
    forall p | p in all ensures p.0 in m[k := v] && m[k := v][p.0] == p.1 {
    }
    var n := m[k := v];
    forall x | x in n ensures (x, n[x]) in all {
      if x == k {
        assert all[|pairs|] == (k, v);
      }
    }
    forall i | 0 <= i < |pairs| ensures all[i].0 != k {
      assert pairs[i] in pairs;
    }
  }

  method NestedItemsOf<K(==), A(==), B>(m: map<K, map<A, B>>) returns (pairs: seq<(K, seq<(A, B)>)>)
    ensures ListsNested(pairs, m)
  {
    var outer := ItemsOf(m);
    pairs := [];
    for i := 0 to |outer|
      invariant |pairs| == i
      invariant forall j :: 0 <= j < i ==> pairs[j].0 == outer[j].0 && Lists(pairs[j].1, outer[j].1)
    {
      var inner := ItemsOf(outer[i].1);
      pairs := pairs + [(outer[i].0, inner)];
    }
    NestedFromOuter(outer, pairs, m);
  }

  lemma NestedFromOuter<K, A, B>(outer: seq<(K, map<A, B>)>, pairs: seq<(K, seq<(A, B)>)>, m: map<K, map<A, B>>)
    requires Lists(outer, m) && |pairs| == |outer|
    requires forall j :: 0 <= j < |outer| ==> pairs[j].0 == outer[j].0 && Lists(pairs[j].1, outer[j].1)
    ensures ListsNested(pairs, m)
  {
    forall p | p in pairs ensures p.0 in m && Lists(p.1, m[p.0]) {
      var j :| 0 <= j < |pairs| && pairs[j] == p;
      assert outer[j] in outer;
    }
    forall k | k in m ensures exists p :: p in pairs && p.0 == k {
      var j :| 0 <= j < |outer| && outer[j] == (k, m[k]);
      assert pairs[j] in pairs;
    }
  }

  type Storage = map<string, map<string, map<string, Value>>>

  /** `storage[thread][namespace] = checkpoints`. */
  function With(storage: Storage, thread: string, namespace: string, checkpoints: map<string, Value>): Storage
    requires thread in storage
  {
    storage[thread := storage[thread][namespace := checkpoints]]
  }

  lemma WithItself(storage: Storage, thread: string, namespace: string)
    requires thread in storage && namespace in storage[thread]
    ensures With(storage, thread, namespace, storage[thread][namespace]) == storage
  {
    assert storage[thread][namespace := storage[thread][namespace]] == storage[thread];
  }

  lemma WithTwice(storage: Storage, thread: string, namespace: string,
                  first: map<string, Value>, second: map<string, Value>)
    requires thread in storage
    ensures var w := With(storage, thread, namespace, first);
            && thread in w && namespace in w[thread] && w[thread][namespace] == first
            && With(w, thread, namespace, second) == With(storage, thread, namespace, second)
            && thread in With(w, thread, namespace, second)
            && namespace in With(w, thread, namespace, second)[thread]
  {
    assert storage[thread][namespace := first][namespace := second] == storage[thread][namespace := second];
  }

  /** No other conversation changed. */
  ghost predicate SameElsewhere(m: Memory, n: Memory, thread: string) {
    forall t :: t != thread ==> Of(n, t) == Of(m, t)
  }

  lemma SameElsewhereAtFirst(m: Memory, thread: string)
    ensures SameElsewhere(m, m, thread)
  {
  }

  lemma MovedOver(done: set<string>, todo: set<string>, one: string)
    requires done !! todo && one in todo
    ensures one !in done && done + {one} !! todo - {one}
    ensures (done + {one}) + (todo - {one}) == done + todo
    ensures |todo - {one}| < |todo|
  {
  }

  lemma PrunedKeys(serde: Serde, c: Conversation, done: set<string>)
    ensures PrunedOn(serde, c, done).storage.Keys == c.storage.Keys
  {
  }

  lemma SameElsewhereChains(m: Memory, n: Memory, o: Memory, thread: string)
    requires SameElsewhere(m, n, thread) && SameElsewhere(n, o, thread)
    ensures SameElsewhere(m, o, thread)
  {
  }

  /** The rows `ORDER BY updated`. */
  ghost predicate ListsRows(listed: seq<string>, rows: map<string, Row>) {
    && (forall t :: t in listed <==> t in rows)
    && (forall i, j :: 0 <= i < j < |listed| ==> listed[i] != listed[j])
    && (forall i, j :: 0 <= i < j < |listed| ==> rows[listed[i]].updated <= rows[listed[j]].updated)
  }

  /** The rows that still stand for a conversation. */
  ghost function KeptRows(b64: Base64, layout: string, cutoff: real, rows: map<string, Row>): map<string, Row> {
    map t | t in rows && ReadBack(b64, layout, cutoff, t, rows[t]).Some? :: rows[t]
  }

  /** What memory holds of a thread once its row has been dealt with. */
  ghost function Restored(b64: Base64, layout: string, cutoff: real, thread: string, row: Row): Conversation {
    var back := ReadBack(b64, layout, cutoff, thread, row);
    if back.Some? then back.value else NOTHING
  }

  /** Memory holds what the rows of these threads stand for, and nothing else. */
  ghost predicate LoadedFrom(m: Memory, b64: Base64, layout: string, cutoff: real, rows: map<string, Row>,
                             threads: seq<string>)
  {
    forall t ::
      Of(m, t) == if t in threads && t in rows then Restored(b64, layout, cutoff, t, rows[t]) else NOTHING
  }

  lemma NothingLoaded(m: Memory, b64: Base64, layout: string, cutoff: real, rows: map<string, Row>)
    requires forall t :: Of(m, t) == NOTHING
    ensures LoadedFrom(m, b64, layout, cutoff, rows, [])
  {
    hide Of, NOTHING;
  }

  lemma NotYetLoaded(m: Memory, b64: Base64, layout: string, cutoff: real, rows: map<string, Row>,
                     listed: seq<string>, i: nat)
    requires i < |listed| && ListsRows(listed, rows)
    requires LoadedFrom(m, b64, layout, cutoff, rows, listed[..i])
    ensures listed[i] in rows && listed[i] !in listed[..i]
    ensures Of(m, listed[i]) == NOTHING
  {
    hide Of, NOTHING, Restored;
    assert listed[i] in listed;
  }

  lemma OneMoreLoaded(m: Memory, n: Memory, b64: Base64, layout: string, cutoff: real, rows: map<string, Row>,
                      listed: seq<string>, i: nat)
    requires i < |listed| && ListsRows(listed, rows) && listed[i] in rows
    requires LoadedFrom(m, b64, layout, cutoff, rows, listed[..i])
    requires SameElsewhere(m, n, listed[i])
    requires Of(n, listed[i]) == Restored(b64, layout, cutoff, listed[i], rows[listed[i]])
    ensures LoadedFrom(n, b64, layout, cutoff, rows, listed[..i + 1])
  {
    hide Of, NOTHING, Restored, ListsRows;
    assert listed[..i + 1] == listed[..i] + [listed[i]];
    forall t
      ensures Of(n, t) ==
              if t in listed[..i + 1] && t in rows then Restored(b64, layout, cutoff, t, rows[t]) else NOTHING
    {
      if t != listed[i] {
        assert Of(n, t) == Of(m, t);
        assert t in listed[..i + 1] <==> t in listed[..i];
      }
    }
  }

  /** The rows seen so far, sorted out into two lists that keep their order. */
  ghost predicate Sorted(rows: map<string, Row>, seen: seq<string>, loaded: seq<string>, drop: seq<string>) {
    && (forall t :: t in seen <==> t in loaded || t in drop)
    && (forall t :: t in seen ==> t in rows)
    && (forall i, j :: 0 <= i < j < |loaded| ==> loaded[i] != loaded[j])
    && (forall i, j :: 0 <= i < j < |loaded| ==> rows[loaded[i]].updated <= rows[loaded[j]].updated)
  }

  lemma OneMoreSorted(rows: map<string, Row>, listed: seq<string>, i: nat, loaded: seq<string>, drop: seq<string>)
    requires i < |listed| && ListsRows(listed, rows)
    requires Sorted(rows, listed[..i], loaded, drop)
    ensures Sorted(rows, listed[..i + 1], loaded + [listed[i]], drop)
    ensures Sorted(rows, listed[..i + 1], loaded, drop + [listed[i]])
  {
    assert listed[..i + 1] == listed[..i] + [listed[i]];
    assert listed[i] in listed;
    forall k | 0 <= k < |loaded|
      ensures loaded[k] != listed[i] && rows[loaded[k]].updated <= rows[listed[i]].updated
    {
      assert loaded[k] in loaded;
      var j :| 0 <= j < |listed[..i]| && listed[..i][j] == loaded[k];
      assert listed[j] == loaded[k];
    }
  }

  lemma DropsTheRest(b64: Base64, layout: string, cutoff: real, rows: map<string, Row>, listed: seq<string>,
                     loaded: seq<string>, drop: seq<string>)
    requires ListsRows(listed, rows) && Sorted(rows, listed, loaded, drop)
    requires forall t :: t in loaded ==> ReadBack(b64, layout, cutoff, t, rows[t]).Some?
    requires forall t :: t in drop ==> ReadBack(b64, layout, cutoff, t, rows[t]).None?
    ensures rows - (set t | t in drop) == KeptRows(b64, layout, cutoff, rows)
    ensures ListsRows(loaded, KeptRows(b64, layout, cutoff, rows))
  {
    hide ReadBack;
    var kept := KeptRows(b64, layout, cutoff, rows);
    assert forall t :: t in kept <==> t in loaded;
  }

  /** A row past its age, or of another layout, is neither kept nor in memory. */
  lemma OldRowsGo(m: Memory, b64: Base64, layout: string, cutoff: real, rows: map<string, Row>, listed: seq<string>)
    requires LoadedFrom(m, b64, layout, cutoff, rows, listed)
    ensures forall t :: t in rows && (rows[t].updated < cutoff || rows[t].layout != layout) ==>
              t !in KeptRows(b64, layout, cutoff, rows) && Of(m, t) == NOTHING
  {
    hide Of, NOTHING, ReadRow, Collected;
  }

  /**
   * Main result: of the rows this saver wrote, exactly those of its layout that are no older than the
   * limit are kept and in memory, each as the conversation it was written from.
   */
  lemma WrittenRowIsLoadedIff(m: Memory, b64: Base64, layout: string, cutoff: real, rows: map<string, Row>,
                              listed: seq<string>, thread: string, c: Conversation)
    requires LoadedFrom(m, b64, layout, cutoff, rows, listed) && ListsRows(listed, rows) && thread in rows
    requires ReadsBack(b64) && ConversationFits(thread, c)
    requires rows[thread].data.Some? && IsRowOf(b64, rows[thread].data.value, c)
    ensures thread in KeptRows(b64, layout, cutoff, rows) <==> rows[thread].updated >= cutoff && rows[thread].layout == layout
    ensures Of(m, thread) == if rows[thread].updated >= cutoff && rows[thread].layout == layout then WithoutEmpty(c) else NOTHING
  {
    hide Of, NOTHING, ReadRow, Collected, ReadsBack, ConversationFits, IsRowOf, WithoutEmpty;
    ConversationComesBack(b64, thread, rows[thread].data.value, c);
    assert thread in listed;
  }

  class SqliteChatSaver {
    const serde: Serde
    const b64: Base64
    const layout: string
    var storage: map<string, map<string, map<string, Value>>>
    var writes: map<WriteKey, map<Value, Value>>
    var blobs: map<BlobKey, Value>
    var rows: map<string, Row>

    ghost function Held(): Memory
      reads this
    {
      Memory(storage, writes, blobs)
    }

    /** A new process: nothing in memory, the rows of the file. */
    constructor (serde: Serde, b64: Base64, layout: string, rows: map<string, Row>)
      ensures this.serde == serde && this.b64 == b64 && this.layout == layout && this.rows == rows
      ensures forall t :: Of(Held(), t) == NOTHING
    {
      this.serde, this.b64, this.layout, this.rows := serde, b64, layout, rows;
      storage, writes, blobs := map[], map[], map[];
    }

    /** `prune` on one thread. */
    method KeepLatest(thread: string)
      modifies this`storage, this`writes, this`blobs
      ensures Of(Held(), thread) == Pruned(serde, old(Of(Held(), thread)))
      ensures SameElsewhere(old(Held()), Held(), thread)
    {
      var todo := if thread in storage then storage[thread].Keys else {};
      ghost var c := Of(Held(), thread);
      ghost var done: set<string> := {};
      assert todo == c.storage.Keys;
      PrunedNowhere(serde, c);
      assert Pruned(serde, c) == PrunedOn(serde, c, todo);
      ghost var all := todo;
      hide PrunedOn, Pruned, Of, SameElsewhere;
      SameElsewhereAtFirst(Held(), thread);
      while todo != {}
        invariant done !! todo && done + todo == all
        invariant Of(Held(), thread) == PrunedOn(serde, c, done)
        invariant SameElsewhere(old(Held()), Held(), thread)
        decreases |todo|
      {
        var namespace :| namespace in todo;
        ghost var before := Held();
        MovedOver(done, todo, namespace);
        PrunedKeys(serde, c, done);
        PruneOneMore(serde, c, done, namespace);
        todo := todo - {namespace};
        KeepLatestOf(thread, namespace);
        SameElsewhereChains(old(Held()), before, Held(), thread);
        done := done + {namespace};
      }
      assert done == all;
    }

    /** The loop body of `_keep_latest`. */
    method KeepLatestOf(thread: string, namespace: string)
      requires namespace in Of(Held(), thread).storage
      modifies this`storage, this`writes, this`blobs
      ensures Of(Held(), thread) == PrunedOn(serde, old(Of(Held(), thread)), {namespace})
      ensures SameElsewhere(old(Held()), Held(), thread)
    {
      ghost var m := Held();
      var checkpoints := storage[thread][namespace];
      if |checkpoints| <= 1 {
        NothingToPrune(serde, Of(m, thread), namespace);
        return;
      }
      HistoryIsNotEmpty(checkpoints);
      LatestExists(checkpoints.Keys);
      var latest :| latest in checkpoints.Keys && IsLatest(checkpoints.Keys, latest);
      var versions := serde(checkpoints[latest]);
      var history := checkpoints.Keys - {latest};
      DropHistory(thread, namespace, history);
      assert checkpoints - history == map[latest := checkpoints[latest]];
      var stale := OldBlobs(Memory(storage, writes, blobs), thread, namespace, versions);
      DropBlobs(stale);
      assert Held() == NamespacePruned(serde, m, thread, namespace, latest);
      NamespacePrunedIs(serde, m, thread, namespace, latest);
    }

    method DropHistory(thread: string, namespace: string, ids: set<string>)
      requires thread in storage && namespace in storage[thread]
      requires ids <= storage[thread][namespace].Keys
      modifies this`storage, this`writes
      ensures storage == With(old(storage), thread, namespace, old(storage)[thread][namespace] - ids)
      ensures writes == old(writes) - OldWrites(thread, namespace, ids)
    {
      hide OldWrites, With;
      var todo := ids;
      ghost var checkpoints := storage[thread][namespace];
      NoOldWrites(thread, namespace);
      assert ids - todo == {};
      WithItself(storage, thread, namespace);
      assert checkpoints - {} == checkpoints;
      while todo != {}
        invariant todo <= ids
        invariant thread in storage && namespace in storage[thread]
        invariant storage == With(old(storage), thread, namespace, checkpoints - (ids - todo))
        invariant writes == old(writes) - OldWrites(thread, namespace, ids - todo)
        decreases |todo|
      {
        var id :| id in todo;
        ghost var done := ids - todo;
        assert ids - (todo - {id}) == done + {id};
        OneMoreOldWrite(thread, namespace, done, id);
        WithTwice(old(storage), thread, namespace, checkpoints - done, checkpoints - done - {id});
        assert checkpoints - (done + {id}) == checkpoints - done - {id};
        todo := todo - {id};
        storage := With(storage, thread, namespace, storage[thread][namespace] - {id});
        writes := writes - {WriteKey(thread, namespace, id)};
      }
      assert ids - todo == ids;
    }

    method DropBlobs(stale: set<BlobKey>)
      modifies this`blobs
      ensures blobs == old(blobs) - stale
    {
      var todo := stale;
      assert stale - todo == {};
      while todo != {}
        invariant todo <= stale
        invariant blobs == old(blobs) - (stale - todo)
        decreases |todo|
      {
        var key :| key in todo;
        assert stale - (todo - {key}) == (stale - todo) + {key};
        todo := todo - {key};
        blobs := blobs - {key};
      }
      assert stale - todo == stale;
    }

    /** Writes the conversation's row; nothing else in memory or file changes. */
    method Persist(thread: string, now: real)
      modifies this`rows
      ensures rows.Keys == old(rows).Keys + {thread}
      ensures forall t :: t in old(rows) && t != thread ==> rows[t] == old(rows)[t]
      ensures rows[thread].layout == layout && rows[thread].updated == now
      ensures rows[thread].data.Some? && IsRowOf(b64, rows[thread].data.value, Of(Held(), thread))
    {
      hide Lists, ListsNested;
      var checkpoints := NestedItemsOf(StorageOf(storage, thread));
      var puts := NestedItemsOf(WritesOf(writes, thread));
      var values := ItemsOf(BlobsOf(blobs, thread));
      var listing := Listing(checkpoints, puts, values);
      assert ListsConversation(listing, Of(Held(), thread));
      rows := rows[thread := Row(layout, now, Some(PrintRow(b64, listing)))];
    }

    /** Removes a thread from memory only. */
    method Forget(thread: string)
      modifies this`storage, this`writes, this`blobs
      ensures Of(Held(), thread) == NOTHING
      ensures SameElsewhere(old(Held()), Held(), thread)
    {
      ghost var m := Held();
      storage := storage - {thread};
      writes := map k | k in writes && k.thread != thread :: writes[k];
      blobs := map k | k in blobs && k.thread != thread :: blobs[k];
      ForgottenIs(m, Held(), thread);
    }

    /** Puts one row's values into memory; None of another thread's change, whatever the row holds. */
    method Restore(thread: string, data: Json) returns (ok: bool)
      requires Of(Held(), thread) == NOTHING
      modifies this`storage, this`writes, this`blobs
      ensures ok <==> ReadRow(b64, thread, data).Some?
      ensures ok ==> Of(Held(), thread) == Collected(ReadRow(b64, thread, data).value)
      ensures SameElsewhere(old(Held()), Held(), thread)
    {
      hide ReadStorage, ReadWrites, ReadBlobs, Field, Of, FromNested, FromEntries, FromPairs, ReadRow, Collected;
      ReadRowInParts(b64, thread, data);
      ghost var m := Held();
      NothingHeld(m, thread);
      var checkpoints := ReadStorage(Field(b64, data, STORAGE));
      if checkpoints.None? {
        return false;
      }
      RestoreStorage(thread, checkpoints.value);
      ghost var held := FromNested(checkpoints.value);
      FromNothing(checkpoints.value);
      RestoredIs(m, Held(), thread, held, map[], map[]);
      var puts := ReadWrites(thread, Field(b64, data, WRITES));
      if puts.None? {
        return false;
      }
      WritesAreOfThread(thread, Field(b64, data, WRITES));
      RestoreWrites(puts.value);
      KeysOfEntries(thread, puts.value);
      RestoredIs(m, Held(), thread, held, FromEntries(puts.value), map[]);
      var values := ReadBlobs(thread, Field(b64, data, BLOBS));
      if values.None? {
        return false;
      }
      BlobsAreOfThread(thread, Field(b64, data, BLOBS));
      RestoreBlobs(values.value);
      KeysOfPairs(thread, values.value);
      RestoredIs(m, Held(), thread, held, FromEntries(puts.value), FromPairs(values.value));
      return true;
    }

    method RestoreStorage(thread: string, pairs: seq<(string, seq<(string, Value)>)>)
      requires thread in storage ==> storage[thread] == map[]
      modifies this`storage
      ensures storage == if pairs == [] then old(storage) else old(storage)[thread := FromNested(pairs)]
    {
      for i := 0 to |pairs|
        invariant storage == if i == 0 then old(storage) else old(storage)[thread := FromNested(pairs[..i])]
      {
        var mine := StorageOf(storage, thread);
        assert pairs[..i + 1][..i] == pairs[..i];
        storage := storage[thread := Updated(mine, pairs[i].0, pairs[i].1)];
      }
      assert pairs[..|pairs|] == pairs;
    }

    method RestoreWrites(pairs: seq<(WriteKey, seq<(Value, Value)>)>)
      requires forall p :: p in pairs ==> p.0 !in writes
      modifies this`writes
      ensures writes == old(writes) + FromEntries(pairs)
    {
      for i := 0 to |pairs|
        invariant writes == old(writes) + FromEntries(pairs[..i])
      {
        var (key, entries) := pairs[i];
        ghost var before := writes;
        for j := 0 to |entries|
          invariant writes == if j == 0 then before else Updated(before, key, entries[..j])
        {
          var (a, b) := entries[j];
          OneMorePut(before, key, entries, j);
          writes := writes[key := (if key in writes then writes[key] else map[])[a := b]];
        }
        assert entries[..|entries|] == entries;
        assert pairs[i] in pairs;
        OneMoreWrite(old(writes), pairs, i);
      }
      assert pairs[..|pairs|] == pairs;
    }

    method RestoreBlobs(pairs: seq<(BlobKey, Value)>)
      modifies this`blobs
      ensures blobs == old(blobs) + FromPairs(pairs)
    {
      for i := 0 to |pairs|
        invariant blobs == old(blobs) + FromPairs(pairs[..i])
      {
        assert pairs[..i + 1][..i] == pairs[..i];
        blobs := blobs[pairs[i].0 := pairs[i].1];
      }
      assert pairs[..|pairs|] == pairs;
    }

    /**
     * Reads the file at start, `listed` being its rows in the order the database gives them. A row is
     * either wholly in memory afterwards, or neither in memory nor in the file.
     */
    method Load(listed: seq<string>, cutoff: real) returns (loaded: seq<string>)
      requires forall t :: Of(Held(), t) == NOTHING
      requires ListsRows(listed, rows)
      modifies this
      ensures LoadedFrom(Held(), b64, layout, cutoff, old(rows), listed)
      ensures rows == KeptRows(b64, layout, cutoff, old(rows))
      ensures ListsRows(loaded, rows)
      ensures forall t :: t in old(rows) && (old(rows)[t].updated < cutoff || old(rows)[t].layout != layout) ==>
                t !in rows && t !in loaded && Of(Held(), t) == NOTHING
    {
      loaded := [];
      var drop: seq<string> := [];
      hide ReadBack, Of, LoadedFrom, NOTHING;
      NothingLoaded(Held(), b64, layout, cutoff, rows);
      for i := 0 to |listed|
        invariant rows == old(rows)
        invariant LoadedFrom(Held(), b64, layout, cutoff, rows, listed[..i])
        invariant Sorted(rows, listed[..i], loaded, drop)
        invariant forall t :: t in loaded ==> ReadBack(b64, layout, cutoff, t, rows[t]).Some?
        invariant forall t :: t in drop ==> ReadBack(b64, layout, cutoff, t, rows[t]).None?
      {
        var thread := listed[i];
        ghost var m := Held();
        NotYetLoaded(m, b64, layout, cutoff, rows, listed, i);
        var ok := LoadRow(thread, rows[thread], cutoff);
        OneMoreLoaded(m, Held(), b64, layout, cutoff, rows, listed, i);
        OneMoreSorted(rows, listed, i, loaded, drop);
        if ok {
          loaded := loaded + [thread];
        } else {
          drop := drop + [thread];
        }
      }
      assert listed[..|listed|] == listed;
      DropsTheRest(b64, layout, cutoff, rows, listed, loaded, drop);
      rows := rows - (set t | t in drop);
      OldRowsGo(Held(), b64, layout, cutoff, old(rows), listed);
    }

    /** The loop body of `_load` up to the bookkeeping. */
    method LoadRow(thread: string, row: Row, cutoff: real) returns (ok: bool)
      requires Of(Held(), thread) == NOTHING
      modifies this`storage, this`writes, this`blobs
      ensures ok <==> ReadBack(b64, layout, cutoff, thread, row).Some?
      ensures Of(Held(), thread) == if ok then ReadBack(b64, layout, cutoff, thread, row).value else NOTHING
      ensures SameElsewhere(old(Held()), Held(), thread)
    {
      hide ReadRow, Collected, Of;
      if row.updated < cutoff {
        return false;
      }
      if row.layout != layout || row.data.None? {
        Forget(thread);
        return false;
      }
      ghost var m := Held();
      ok := Restore(thread, row.data.value);
      if !ok {
        ghost var n := Held();
        Forget(thread);
        SameElsewhereChains(m, n, Held(), thread);
      }
    }

    method DeleteThread(thread: string)
      modifies this
      ensures Of(Held(), thread) == NOTHING && rows == old(rows) - {thread}
      ensures SameElsewhere(old(Held()), Held(), thread)
    {
      Forget(thread);
      rows := rows - {thread};
    }
  }

  lemma ReadRowInParts(b64: Base64, thread: string, data: Json)
    ensures var storage := ReadStorage(Field(b64, data, STORAGE));
            var writes := ReadWrites(thread, Field(b64, data, WRITES));
            var blobs := ReadBlobs(thread, Field(b64, data, BLOBS));
            && (ReadRow(b64, thread, data).Some? <==> storage.Some? && writes.Some? && blobs.Some?)
            && (ReadRow(b64, thread, data).Some? ==>
                Collected(ReadRow(b64, thread, data).value) ==
                Conversation(FromNested(storage.value), FromEntries(writes.value), FromPairs(blobs.value)))
  {
  }

  lemma NothingHeld(m: Memory, thread: string)
    requires Of(m, thread) == NOTHING
    ensures thread in m.storage ==> m.storage[thread] == map[]
    ensures forall k :: k in m.writes ==> k.thread != thread
    ensures forall k :: k in m.blobs ==> k.thread != thread
  {
    forall k | k in m.writes ensures k.thread != thread {
      assert k.thread == thread ==> k in Of(m, thread).writes;
    }
    forall k | k in m.blobs ensures k.thread != thread {
      assert k.thread == thread ==> k in Of(m, thread).blobs;
    }
  }

  lemma FromNothing<K, A, B>(pairs: seq<(K, seq<(A, B)>)>)
    ensures pairs == [] ==> FromNested(pairs) == map[]
  {
  }

  lemma WritesAreOfThread(thread: string, v: Option<Value>)
    requires ReadWrites(thread, v).Some?
    ensures forall p :: p in ReadWrites(thread, v).value ==> p.0.thread == thread
  {
  }

  lemma BlobsAreOfThread(thread: string, v: Option<Value>)
    requires ReadBlobs(thread, v).Some?
    ensures forall p :: p in ReadBlobs(thread, v).value ==> p.0.thread == thread
  {
  }

  lemma KeysOfEntries(thread: string, pairs: seq<(WriteKey, seq<(Value, Value)>)>)
    requires forall p :: p in pairs ==> p.0.thread == thread
    ensures forall k :: k in FromEntries(pairs) ==> k.thread == thread
  {
    if pairs != [] {
      assert pairs[|pairs| - 1] in pairs;
      KeysOfEntries(thread, pairs[..|pairs| - 1]);
    }
  }

  lemma KeysOfPairs(thread: string, pairs: seq<(BlobKey, Value)>)
    requires forall p :: p in pairs ==> p.0.thread == thread
    ensures forall k :: k in FromPairs(pairs) ==> k.thread == thread
  {
    if pairs != [] {
      assert pairs[|pairs| - 1] in pairs;
      KeysOfPairs(thread, pairs[..|pairs| - 1]);
    }
  }

  lemma RestoredIs(m: Memory, n: Memory, thread: string, storage: map<string, map<string, Value>>,
                   writes: map<WriteKey, map<Value, Value>>, blobs: map<BlobKey, Value>)
    requires Of(m, thread) == NOTHING
    requires n.storage == m.storage[thread := storage] || (n.storage == m.storage && storage == map[])
    requires n.writes == m.writes + writes && n.blobs == m.blobs + blobs
    requires forall k :: k in writes ==> k.thread == thread
    requires forall k :: k in blobs ==> k.thread == thread
    ensures Of(n, thread) == Conversation(storage, writes, blobs)
    ensures forall t :: t != thread ==> Of(n, t) == Of(m, t)
  {
    NothingHeld(m, thread);
    WritesRestored(m.writes, thread, writes);
    BlobsRestored(m.blobs, thread, blobs);
    hide WritesOf, BlobsOf;
  }

  lemma WritesRestored(held: map<WriteKey, map<Value, Value>>, thread: string, more: map<WriteKey, map<Value, Value>>)
    requires forall k :: k in held ==> k.thread != thread
    requires forall k :: k in more ==> k.thread == thread
    ensures WritesOf(held + more, thread) == more
    ensures forall t :: t != thread ==> WritesOf(held + more, t) == WritesOf(held, t)
  {
  }

  lemma BlobsRestored(held: map<BlobKey, Value>, thread: string, more: map<BlobKey, Value>)
    requires forall k :: k in held ==> k.thread != thread
    requires forall k :: k in more ==> k.thread == thread
    ensures BlobsOf(held + more, thread) == more
    ensures forall t :: t != thread ==> BlobsOf(held + more, t) == BlobsOf(held, t)
  {
  }

  lemma OneMorePut(m: map<WriteKey, map<Value, Value>>, key: WriteKey, entries: seq<(Value, Value)>, j: nat)
    requires j < |entries|
    ensures var before := if j == 0 then m else Updated(m, key, entries[..j]);
            Updated(m, key, entries[..j + 1]) ==
            before[key := (if key in before then before[key] else map[])[entries[j].0 := entries[j].1]]
  {
    var mine := if key in m then m[key] else map[];
    assert entries[..j + 1][..j] == entries[..j];
    assert j == 0 ==> FromPairs(entries[..j]) == map[];
    assert mine + map[] == mine;
    assert mine + FromPairs(entries[..j + 1]) == (mine + FromPairs(entries[..j]))[entries[j].0 := entries[j].1];
  }

  lemma OneMoreWrite(m: map<WriteKey, map<Value, Value>>, pairs: seq<(WriteKey, seq<(Value, Value)>)>, i: nat)
    requires i < |pairs| && pairs[i].0 !in m
    ensures m + FromEntries(pairs[..i + 1]) ==
            if pairs[i].1 == [] then m + FromEntries(pairs[..i])
            else Updated(m + FromEntries(pairs[..i]), pairs[i].0, pairs[i].1)
  {
    assert pairs[..i + 1][..i] == pairs[..i];
  }

  lemma NoOldWrites(thread: string, namespace: string)
    ensures OldWrites(thread, namespace, {}) == {}
  {
  }

  lemma OneMoreOldWrite(thread: string, namespace: string, ids: set<string>, id: string)
    ensures OldWrites(thread, namespace, ids + {id})
         == OldWrites(thread, namespace, ids) + {WriteKey(thread, namespace, id)}
  {
  }

  lemma ForgottenIs(m: Memory, n: Memory, thread: string)
    requires n.storage == m.storage - {thread}
    requires n.writes == map k | k in m.writes && k.thread != thread :: m.writes[k]
    requires n.blobs == map k | k in m.blobs && k.thread != thread :: m.blobs[k]
    ensures Of(n, thread) == NOTHING
    ensures forall t :: t != thread ==> Of(n, t) == Of(m, t)
  {
    forall t | t != thread ensures Of(n, t) == Of(m, t) {
      assert Of(n, t).writes == Of(m, t).writes;
      assert Of(n, t).blobs == Of(m, t).blobs;
    }
    assert Of(n, thread).writes == map[] && Of(n, thread).blobs == map[];
  }

  lemma PrunedNowhere(serde: Serde, c: Conversation)
    ensures PrunedOn(serde, c, {}) == c
  {
    var p := PrunedOn(serde, c, {});
    assert p.storage == c.storage && p.writes == c.writes && p.blobs == c.blobs;
  }
}
