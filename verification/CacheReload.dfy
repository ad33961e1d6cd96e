/** What survives a restart: the metadata file is written by `store`, pruned by per-key cleaning, read by `load`. */
module CacheReload {
  import opened Wrappers
  import opened CacheTypes
  import opened CacheFacts
  import opened CacheSpec

  ghost predicate Distinct(entries: seq<Entry>) {
    forall a, b :: 0 <= a < b < |entries| ==> entries[a].key != entries[b].key
  }

  ghost predicate OwnPaths(config: Config, entries: seq<Entry>) {
    forall k :: 0 <= k < |entries| ==> entries[k].meta.record.bodyPath == BodyPath(config, entries[k].key)
  }

  /** A metadata file lists each key once, with the path of that key. */
  ghost predicate WellFormed(config: Config, stored: seq<StoredEntry>) {
    && (forall a, b :: 0 <= a < b < |stored| ==> stored[a].key != stored[b].key)
    && (forall k :: 0 <= k < |stored| ==> stored[k].record.bodyPath == BodyPath(config, stored[k].key))
  }

  predicate Loadable(entry: Entry, files: Files, now: int) {
    !Expired(entry.meta, now) && entry.meta.record.bodyPath in files
  }

  // ---------- load ----------

  lemma {:induction false} LoadLeavesOtherFiles(entries: seq<Entry>, files: Files, now: int, p: FilePath)
    requires forall k :: 0 <= k < |entries| ==> entries[k].meta.record.bodyPath != p
    ensures p in LoadEntries(entries, map[], files, now).1 <==> p in files
    decreases |entries|
  {
    if entries != [] {
      LoadLeavesOtherFiles(entries[..|entries| - 1], files, now, p);
    }
  }

  lemma {:induction false} LoadInsertsOnlyEntries(entries: seq<Entry>, files: Files, now: int, key: string)
    requires forall k :: 0 <= k < |entries| ==> entries[k].key != key
    ensures key !in LoadEntries(entries, map[], files, now).0
    decreases |entries|
  {
    if entries != [] {
      LoadInsertsOnlyEntries(entries[..|entries| - 1], files, now, key);
    }
  }

  lemma {:induction false} LoadsEntry(entries: seq<Entry>, files: Files, now: int, i: nat)
    requires i < |entries| && Distinct(entries)
    requires forall k :: 0 <= k < i ==> entries[k].meta.record.bodyPath != entries[i].meta.record.bodyPath
    ensures var cache := LoadEntries(entries, map[], files, now).0;
      && (entries[i].key in cache <==> Loadable(entries[i], files, now))
      && (entries[i].key in cache ==> cache[entries[i].key] == entries[i].meta)
    decreases |entries|
  {
    var n := |entries| - 1;
    var init := entries[..n];
    if i == n {
      LoadLeavesOtherFiles(init, files, now, entries[n].meta.record.bodyPath);
      LoadInsertsOnlyEntries(init, files, now, entries[n].key);
    } else {
      LoadsEntry(init, files, now, i);
      assert entries[n].key != entries[i].key;
    }
  }

  lemma LoadsOwnEntry(config: Config, keys: set<string>, entries: seq<Entry>, files: Files, now: int, i: nat)
    requires NoCollision(config, keys) && forall k :: 0 <= k < |entries| ==> entries[k].key in keys
    requires Distinct(entries) && OwnPaths(config, entries) && i < |entries|
    ensures var cache := LoadEntries(entries, map[], files, now).0;
      && (entries[i].key in cache <==> Loadable(entries[i], files, now))
      && (entries[i].key in cache ==> cache[entries[i].key] == entries[i].meta)
  {
    forall k | 0 <= k < i ensures entries[k].meta.record.bodyPath != entries[i].meta.record.bodyPath {
      SamePathIffSameCrc(config, entries[k].key, entries[i].key);
    }
    LoadsEntry(entries, files, now, i);
  }

  /** An entry of the map as it comes back through the metadata file. */
  function Reloaded(meta: Metadata, write: Clock, read: Clock): Metadata
    requires write.wall <= read.wall
  {
    WrittenIsReadable(meta.createdAt, write, read);
    Metadata(meta.record, DeserializeInstant(SerializeInstant(meta.createdAt, write), read).value)
  }

  lemma WrittenIsReadable(createdAt: int, write: Clock, read: Clock)
    requires write.wall <= read.wall
    ensures SerializeInstant(createdAt, write) * SECOND <= read.wall
  {
  }

  /** `store`, then a restart with whatever files are left by then, then `load`: exactly the entries that were
      unexpired at the store, are unexpired at the load by the time written, and still have their body come
      back, with everything but the creation time unchanged. */
  lemma StoreThenLoad(
    config: Config, s: State, write: Clock, s': State, files: Files, read: Clock, key: string)
    requires NoCollision(config, s.cache.Keys) && StorePass(s, write, s') && write.wall <= read.wall
    requires forall k :: k in s.cache ==> s.cache[k].record.bodyPath == BodyPath(config, k)
    ensures var loaded := LoadPass(State(map[], files, s'.snapshot), read).cache;
      && (key in loaded <==>
            && key in s.cache && !Expired(s.cache[key], write.now)
            && BodyPath(config, key) in files && !Expired(Reloaded(s.cache[key], write, read), read.now))
      && (key in loaded ==> loaded[key] == Reloaded(s.cache[key], write, read))
  {
    var entries: seq<Entry> :|
      ListsUnexpired(entries, s.cache, write.now) && s'.snapshot == Some(WriteEntries(entries, write));
    ListedEntriesLoad(config, s.cache, entries, write, files, read, key);
  }

  lemma ListedEntriesLoad(
    config: Config, cache: Cache, entries: seq<Entry>, write: Clock, files: Files, read: Clock, key: string)
    requires NoCollision(config, cache.Keys) && ListsUnexpired(entries, cache, write.now) && write.wall <= read.wall
    requires forall k :: k in cache ==> cache[k].record.bodyPath == BodyPath(config, k)
    ensures Readable(WriteEntries(entries, write), read)
    ensures var loaded := LoadEntries(ReadEntries(WriteEntries(entries, write), read), map[], files, read.now).0;
      && (key in loaded <==>
            && key in cache && !Expired(cache[key], write.now)
            && BodyPath(config, key) in files && !Expired(Reloaded(cache[key], write, read), read.now))
      && (key in loaded ==> loaded[key] == Reloaded(cache[key], write, read))
  {
    StoredEntriesReadBack(config, cache, entries, write, read);
    var back := ReadEntries(WriteEntries(entries, write), read);
    if key in cache && !Expired(cache[key], write.now) {
      var k :| 0 <= k < |entries| && entries[k].key == key;
      assert ReadsBackAs(back[k], entries[k], write, read);
      LoadsOwnEntry(config, cache.Keys, back, files, read.now, k);
    } else {
      forall k | 0 <= k < |back| ensures back[k].key != key {
        assert ReadsBackAs(back[k], entries[k], write, read);
      }
      LoadInsertsOnlyEntries(back, files, read.now, key);
    }
  }

  lemma StoredEntriesReadBack(config: Config, cache: Cache, entries: seq<Entry>, write: Clock, read: Clock)
    requires ListsUnexpired(entries, cache, write.now) && write.wall <= read.wall
    requires forall k :: k in cache ==> cache[k].record.bodyPath == BodyPath(config, k)
    ensures Readable(WriteEntries(entries, write), read)
    ensures var back := ReadEntries(WriteEntries(entries, write), read);
      && Distinct(back) && OwnPaths(config, back)
      && (forall k :: 0 <= k < |back| ==> ReadsBackAs(back[k], entries[k], write, read))
  {
  }

  predicate ReadsBackAs(back: Entry, entry: Entry, write: Clock, read: Clock)
    requires write.wall <= read.wall
  {
    back.key == entry.key && back.meta == Reloaded(entry.meta, write, read)
  }

  // ---------- What the metadata file says of a key ----------

  /** A metadata file in which every entry has the same time, as it is after any rewrite. */
  ghost predicate Stamped(config: Config, s: State, stamp: nat) {
    && s.snapshot.Some? && WellFormed(config, s.snapshot.value)
    && forall k :: 0 <= k < |s.snapshot.value| ==> s.snapshot.value[k].timestamp == stamp
  }

  ghost predicate Lists(s: State, key: string, record: Record)
    requires s.snapshot.Some?
  {
    exists k :: 0 <= k < |s.snapshot.value| && s.snapshot.value[k].key == key && s.snapshot.value[k].record == record
  }

  ghost function ListedKeys(s: State): set<string>
    requires s.snapshot.Some?
  {
    set e | e in s.snapshot.value :: e.key
  }

  /** The metadata with which a process that reads `stamp` at `read` loads a record. */
  function LoadedAs(record: Record, stamp: nat, read: Clock): Metadata {
    Metadata(record, read.now - (read.wall - stamp * SECOND))
  }

  /** `store` stamps the file with its own second, and lists exactly the unexpired entries. */
  lemma StoreStamps(config: Config, s: State, write: Clock, s': State)
    requires StorePass(s, write, s')
    requires forall k :: k in s.cache ==>
      s.cache[k].record.bodyPath == BodyPath(config, k) && s.cache[k].createdAt <= write.now
    ensures Stamped(config, s', write.wall / SECOND)
    ensures forall key, record ::
      Lists(s', key, record) <==> key in s.cache && !Expired(s.cache[key], write.now) && s.cache[key].record == record
    ensures ListedKeys(s') <= s.cache.Keys
  {
    var entries: seq<Entry> :|
      ListsUnexpired(entries, s.cache, write.now) && s'.snapshot == Some(WriteEntries(entries, write));
    var stored := s'.snapshot.value;
    forall key, record
      ensures Lists(s', key, record) <==>
        key in s.cache && !Expired(s.cache[key], write.now) && s.cache[key].record == record
    {
      if key in s.cache && !Expired(s.cache[key], write.now) {
        var k :| 0 <= k < |entries| && entries[k].key == key;
        assert stored[k].key == key && stored[k].record == s.cache[key].record;
      }
    }
  }

  /** `load` into an empty map: a listed key is loaded exactly if its body is there and it is unexpired by the
      stamp. */
  lemma LoadOfListed(config: Config, s: State, stamp: nat, read: Clock, key: string, record: Record)
    requires Stamped(config, s, stamp) && NoCollision(config, ListedKeys(s)) && stamp * SECOND <= read.wall
    requires Lists(s, key, record)
    ensures var loaded := LoadPass(s.(cache := map[]), read).cache;
      && (key in loaded <==> BodyPath(config, key) in s.files && !Expired(LoadedAs(record, stamp, read), read.now))
      && (key in loaded ==> loaded[key] == LoadedAs(record, stamp, read))
  {
    var stored := s.snapshot.value;
    var entries := ReadEntries(stored, read);
    forall k | 0 <= k < |entries| ensures entries[k].key in ListedKeys(s) {
      assert stored[k] in stored;
    }
    var k :| 0 <= k < |stored| && stored[k].key == key && stored[k].record == record;
    LoadsOwnEntry(config, ListedKeys(s), entries, s.files, read.now, k);
  }

  /** An unlisted key is not loaded. */
  lemma LoadOfUnlisted(config: Config, s: State, stamp: nat, read: Clock, key: string)
    requires Stamped(config, s, stamp) && stamp * SECOND <= read.wall && forall record :: !Lists(s, key, record)
    ensures key !in LoadPass(s.(cache := map[]), read).cache
  {
    var stored := s.snapshot.value;
    var entries := ReadEntries(stored, read);
    forall k | 0 <= k < |entries| ensures entries[k].key != key {
      assert stored[k].key == key ==> Lists(s, key, stored[k].record);
    }
    LoadInsertsOnlyEntries(entries, s.files, read.now, key);
  }

  // ---------- Cleaning of another shard ----------

  lemma {:induction false} CleanKeepsEntries(
    config: Config, shard: Option<nat>, valid: set<FilePath>, entries: seq<Entry>, files: Files, now: int)
    requires Distinct(entries)
    ensures var kept := CleanEntries(config, shard, valid, entries, files, now).0;
      Distinct(kept) && forall k :: 0 <= k < |kept| ==> kept[k] in entries
    decreases |entries|
  {
    if entries != [] {
      var n := |entries| - 1;
      var e, init := entries[n], entries[..n];
      CleanKeepsEntries(config, shard, valid, init, files, now);
      var kept := CleanEntries(config, shard, valid, init, files, now).0;
      forall k | 0 <= k < |kept| ensures kept[k] in entries && kept[k].key != e.key {
        assert kept[k] in init;
      }
    }
  }

  lemma {:induction false} CleanKeepsOtherShardEntry(
    config: Config, shard: nat, valid: set<FilePath>, entries: seq<Entry>, files: Files, now: int, i: nat)
    requires i < |entries| && ShardId(config, entries[i].key) != shard
    ensures entries[i] in CleanEntries(config, Some(shard), valid, entries, files, now).0
    decreases |entries|
  {
    if i < |entries| - 1 {
      CleanKeepsOtherShardEntry(config, shard, valid, entries[..|entries| - 1], files, now, i);
    }
  }

  lemma {:induction false} CleanKeepsOtherShardFile(
    config: Config, shard: nat, valid: set<FilePath>, entries: seq<Entry>, files: Files, now: int, p: FilePath)
    requires OwnPaths(config, entries) && p.dir != ShardDir(shard)
    ensures SameFile(files, CleanEntries(config, Some(shard), valid, entries, files, now).1, p)
    decreases |entries|
  {
    if entries != [] {
      CleanKeepsOtherShardFile(config, shard, valid, entries[..|entries| - 1], files, now, p);
    }
  }

  predicate SameFile(files: Files, files': Files, p: FilePath) {
    (p in files <==> p in files') && (p in files ==> files[p] == files'[p])
  }

  /** Cleaning for a key of another shard rewrites the time of what is listed, and for this key nothing else: it
      stays listed, or unlisted, and its body stays as it is. */
  lemma CleanKeepsOtherShard(config: Config, s: State, stamp: nat, shard: nat, clock: Clock, key: string)
    requires Stamped(config, s, stamp) && stamp * SECOND <= clock.wall && ShardId(config, key) != shard
    ensures var s' := CleanPass(config, s, Some(shard), clock);
      && Stamped(config, s', clock.wall / SECOND) && ListedKeys(s') <= ListedKeys(s)
      && (forall record :: Lists(s', key, record) <==> Lists(s, key, record))
      && SameFile(s.files, s'.files, BodyPath(config, key))
  {
    var stored, valid := s.snapshot.value, Paths(s.cache);
    var entries := ReadEntries(stored, clock);
    var kept := CleanEntries(config, Some(shard), valid, entries, s.files, clock.now).0;
    CleanKeepsEntries(config, Some(shard), valid, entries, s.files, clock.now);
    RewritingStamps(config, s, stored, kept, clock, CleanPass(config, s, Some(shard), clock));
    forall record | Lists(s, key, record) ensures Lists(CleanPass(config, s, Some(shard), clock), key, record) {
      var i :| 0 <= i < |stored| && stored[i].key == key && stored[i].record == record;
      CleanKeepsOtherShardEntry(config, shard, valid, entries, s.files, clock.now, i);
      var j :| 0 <= j < |kept| && kept[j] == entries[i];
      assert WriteEntries(kept, clock)[j].key == key;
    }
    ScannedShardHoldsTheBody(config, key, shard);
    CleanKeepsOtherShardFile(config, shard, valid, entries, s.files, clock.now, BodyPath(config, key));
  }

  /** Any part of a metadata file, read and written again. */
  lemma RewritingStamps(
    config: Config, s: State, stored: seq<StoredEntry>, kept: seq<Entry>, clock: Clock, s': State)
    requires s.snapshot == Some(stored) && s'.snapshot == Some(WriteEntries(kept, clock))
    requires WellFormed(config, stored) && Readable(stored, clock) && Distinct(kept)
    requires forall k :: 0 <= k < |kept| ==> kept[k] in ReadEntries(stored, clock)
    ensures Stamped(config, s', clock.wall / SECOND) && ListedKeys(s') <= ListedKeys(s)
    ensures forall key, record :: Lists(s', key, record) ==> Lists(s, key, record)
  {
    var entries, again := ReadEntries(stored, clock), WriteEntries(kept, clock);
    forall k | 0 <= k < |again|
      ensures again[k].timestamp == clock.wall / SECOND && Lists(s, again[k].key, again[k].record)
        && again[k].record.bodyPath == BodyPath(config, again[k].key) && again[k].key in ListedKeys(s)
    {
      var j :| 0 <= j < |entries| && entries[j] == kept[k];
      assert entries[j] == ReadEntry(stored[j], clock) && stored[j] in stored;
    }
    forall e | e in again ensures e.key in ListedKeys(s) {
      var k :| 0 <= k < |again| && again[k] == e;
    }
  }

  /** Any number of cleanings, each for some shard at some time. */
  function CleanMany(config: Config, s: State, cleanings: seq<(nat, Clock)>): State
    decreases |cleanings|
  {
    if cleanings == [] then s
    else
      var n := |cleanings| - 1;
      CleanPass(config, CleanMany(config, s, cleanings[..n]), Some(cleanings[n].0), cleanings[n].1)
  }

  ghost predicate WallAdvances(from: nat, cleanings: seq<(nat, Clock)>) {
    && (forall i :: 0 <= i < |cleanings| ==> from <= cleanings[i].1.wall)
    && (forall i, j :: 0 <= i < j < |cleanings| ==> cleanings[i].1.wall <= cleanings[j].1.wall)
  }

  function LastWrite(from: nat, cleanings: seq<(nat, Clock)>): nat {
    if cleanings == [] then from else cleanings[|cleanings| - 1].1.wall
  }

  lemma {:induction false} CleaningsKeepOtherShards(
    config: Config, s: State, wall: nat, cleanings: seq<(nat, Clock)>, key: string)
    requires Stamped(config, s, wall / SECOND) && WallAdvances(wall, cleanings)
    requires forall i :: 0 <= i < |cleanings| ==> cleanings[i].0 != ShardId(config, key)
    ensures var s' := CleanMany(config, s, cleanings);
      && Stamped(config, s', LastWrite(wall, cleanings) / SECOND) && ListedKeys(s') <= ListedKeys(s)
      && (forall record :: Lists(s', key, record) <==> Lists(s, key, record))
      && SameFile(s.files, s'.files, BodyPath(config, key))
    decreases |cleanings|
  {
    if cleanings != [] {
      var n := |cleanings| - 1;
      var init := cleanings[..n];
      CleaningsKeepOtherShards(config, s, wall, init, key);
      var mid, clock := CleanMany(config, s, init), cleanings[n].1;
      assert (LastWrite(wall, init) / SECOND) * SECOND <= clock.wall;
      CleanKeepsOtherShard(config, mid, LastWrite(wall, init) / SECOND, cleanings[n].0, clock, key);
    }
  }

  /** `store`, then any cleanings of other shards, then a restart and `load`: the key is back if and only if its
      entry was unexpired at the store, its body is there, and it is unexpired by the time of the last rewrite; and
      it is back with its record unchanged. */
  lemma CleaningOtherShardsNeverDropsAnEntry(
    config: Config, s: State, write: Clock, stored: State, cleanings: seq<(nat, Clock)>, key: string, read: Clock)
    requires NoCollision(config, s.cache.Keys) && StorePass(s, write, stored)
    requires forall k :: k in s.cache ==>
      s.cache[k].record.bodyPath == BodyPath(config, k) && s.cache[k].createdAt <= write.now
    requires WallAdvances(write.wall, cleanings) && LastWrite(write.wall, cleanings) <= read.wall
    requires forall i :: 0 <= i < |cleanings| ==> cleanings[i].0 != ShardId(config, key)
    ensures var loaded := LoadPass(CleanMany(config, stored, cleanings).(cache := map[]), read).cache;
      var stamp := LastWrite(write.wall, cleanings) / SECOND;
      && (key in loaded <==>
            && key in s.cache && !Expired(s.cache[key], write.now) && BodyPath(config, key) in s.files
            && !Expired(LoadedAs(s.cache[key].record, stamp, read), read.now))
      && (key in loaded ==> loaded[key] == LoadedAs(s.cache[key].record, stamp, read))
  {
    StoreStamps(config, s, write, stored);
    CleaningsKeepOtherShards(config, stored, write.wall, cleanings, key);
    var cleaned, stamp := CleanMany(config, stored, cleanings), LastWrite(write.wall, cleanings) / SECOND;
    assert stamp * SECOND <= read.wall;
    if key in s.cache && !Expired(s.cache[key], write.now) {
      StoreKeepsUnexpiredBody(config, s, write, stored, key);
      LoadOfListed(config, cleaned, stamp, read, key, s.cache[key].record);
    } else {
      LoadOfUnlisted(config, cleaned, stamp, read, key);
    }
  }

  lemma StoreKeepsUnexpiredBody(config: Config, s: State, write: Clock, stored: State, key: string)
    requires NoCollision(config, s.cache.Keys) && StorePass(s, write, stored)
    requires forall k :: k in s.cache ==> s.cache[k].record.bodyPath == BodyPath(config, k)
    requires key in s.cache && !Expired(s.cache[key], write.now)
    ensures SameFile(s.files, stored.files, BodyPath(config, key))
  {
    forall k | k in s.cache && Expired(s.cache[k], write.now) ensures BodyPath(config, k) != BodyPath(config, key) {
      SamePathIffSameCrc(config, k, key);
    }
  }
}
