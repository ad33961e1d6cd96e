/** What the cache operations do to single entries and single files, said of the map, the files and the stored
    entries themselves. The methods of `CacheService` promise this beside the operations of `CacheSpec`. */
module CacheEffects {
  import opened Wrappers
  import opened CacheTypes
  import opened CacheFacts
  import opened CacheSpec
  import DomainLabels

  // ---------- Which puts are refused ----------

  /** The value of a header is the one of its first line. */
  predicate FirstLine(headers: Headers, name: string, h: nat) {
    h < |headers| && headers[h].0 == name && forall g :: 0 <= g < h ==> headers[g].0 != name
  }

  lemma {:induction false} ValueOfFirstLine(headers: Headers, name: string)
    ensures forall h: nat :: FirstLine(headers, name, h) ==> HeaderValue(headers, name) == Some(headers[h].1)
    ensures HeaderValue(headers, name).Some? ==> exists h: nat :: FirstLine(headers, name, h)
    decreases |headers|
  {
    if headers != [] {
      ValueOfFirstLine(headers[1..], name);
      forall h: nat | FirstLine(headers, name, h) ensures HeaderValue(headers, name) == Some(headers[h].1) {
        if h > 0 {
          assert FirstLine(headers[1..], name, h - 1);
        }
      }
      if headers[0].0 == name {
        assert FirstLine(headers, name, 0);
      } else if HeaderValue(headers, name).Some? {
        var h: nat :| FirstLine(headers[1..], name, h);
        forall g | 0 <= g < h + 1 ensures headers[g].0 != name {
          assert g > 0 ==> headers[g] == headers[1..][g - 1];
        }
        assert FirstLine(headers, name, h + 1);
      }
    }
  }

  /** Eight characters of the value from `i` on spell the word, in either case each. */
  predicate SpellsNoStore(value: string, i: nat) {
    i + 8 <= |value| && forall j :: 0 <= j < 8 ==> value[i + j] == "no-store"[j] || value[i + j] == "NO-STORE"[j]
  }

  ghost predicate ForbidsStoring(headers: Headers) {
    exists h: nat, i: nat :: FirstLine(headers, "cache-control", h) && SpellsNoStore(headers[h].1, i)
  }

  predicate TooLong(config: Config, body: Bytes) {
    config.maxFileSize.Some? && |body| > config.maxFileSize.value
  }

  lemma NoStoreIff(value: string)
    ensures Contains(DomainLabels.ToLowercase(value), "no-store") <==> exists i: nat :: SpellsNoStore(value, i)
  {
    var lower := DomainLabels.ToLowercase(value);
    forall i: nat | i + 8 <= |value| ensures OccursAt(lower, "no-store", i) <==> SpellsNoStore(value, i) {
      if OccursAt(lower, "no-store", i) {
        forall j | 0 <= j < 8 ensures lower[i + j] == "no-store"[j] {
          assert lower[i..i + 8][j] == lower[i + j];
        }
      }
      if SpellsNoStore(value, i) {
        assert lower[i..i + 8] == "no-store";
      }
    }
  }

  /** When a put is skipped, when it fails, and when it is accepted. */
  lemma DecisionIff(config: Config, response: Response, body: Bytes)
    ensures PutDecision(config, response, body) == Skipped <==>
      TooLong(config, body) || ForbidsStoring(response.headers)
    ensures PutDecision(config, response, body) == Failed <==>
      && !TooLong(config, body) && !ForbidsStoring(response.headers)
      && config.strategy == All && config.codec.gzip(body).None?
  {
    ValueOfFirstLine(response.headers, "cache-control");
    if HeaderValue(response.headers, "cache-control").Some? {
      var h: nat :| FirstLine(response.headers, "cache-control", h);
      NoStoreIff(response.headers[h].1);
    }
  }

  lemma TwoDirectives()
    ensures SpellsNoStore("private, No-Store", 9)
    ensures forall i: nat :: !SpellsNoStore("no-cache", i)
  {
    forall i: nat | i + 8 <= |"no-cache"| ensures !SpellsNoStore("no-cache", i) {
      assert "no-cache"[i + 3] == 'c' && "no-store"[3] == 's' && "NO-STORE"[3] == 'S';
    }
  }

  /** A page that asks not to be stored is not; one that asks to be revalidated is. */
  lemma NoStoreIsNotNoCache(config: Config, body: Bytes)
    requires !TooLong(config, body) && config.strategy != All
    ensures PutDecision(config, Response([("cache-control", "private, No-Store")], 200), body) == Skipped
    ensures PutDecision(config, Response([("cache-control", "no-cache")], 200), body) == Stored
  {
    hide PutDecision, SpellsNoStore;
    TwoDirectives();
    var skipped := [("cache-control", "private, No-Store")];
    DecisionIff(config, Response(skipped, 200), body);
    assert FirstLine(skipped, "cache-control", 0);
    DecisionIff(config, Response([("cache-control", "no-cache")], 200), body);
  }

  /** The end of an entry's life. */
  predicate Over(meta: Metadata, now: int) {
    now >= meta.createdAt + (meta.record.ttl + 1) * SECOND
  }

  // ---------- store ----------

  /** Some entry whose life is over has its body in `f`. */
  ghost predicate HasDeadBody(cache: Cache, f: FilePath, now: int) {
    exists k :: k in cache && cache[k].record.bodyPath == f && Over(cache[k], now)
  }

  ghost predicate Mentions(stored: seq<StoredEntry>, k: string, record: Record) {
    exists e :: e in stored && e.key == k && e.record == record
  }

  /** Bodies of entries whose life is over go, and nothing else changes but the metadata file; that has each of the
      other entries, and no more, with the whole second of the writing. */
  ghost predicate StoreEffect(before: State, clock: Clock, after: State) {
    && after.cache == before.cache
    && (forall f :: f in after.files <==> f in before.files && !HasDeadBody(before.cache, f, clock.now))
    && (forall f :: f in after.files ==> after.files[f] == before.files[f])
    && after.snapshot.Some?
    && (forall k: string, record: Record ::
          Mentions(after.snapshot.value, k, record) <==>
          k in before.cache && before.cache[k].record == record && !Over(before.cache[k], clock.now))
    && (forall e: StoredEntry :: e in after.snapshot.value ==>
          e.key in before.cache && (before.cache[e.key].createdAt <= clock.now ==> e.timestamp == clock.wall / SECOND))
  }

  lemma StoreHasEffect(s: State, clock: Clock, s': State)
    requires StorePass(s, clock, s')
    ensures StoreEffect(s, clock, s')
  {
    hide Expired, Over;
    forall k | k in s.cache ensures Expired(s.cache[k], clock.now) <==> Over(s.cache[k], clock.now) {
      OverIff(s.cache[k], clock.now);
    }
    var entries: seq<Entry> :|
      ListsUnexpired(entries, s.cache, clock.now) && s'.snapshot == Some(WriteEntries(entries, clock));
    forall k | k in s.cache && !Over(s.cache[k], clock.now)
      ensures Mentions(s'.snapshot.value, k, s.cache[k].record)
    {
      var i :| 0 <= i < |entries| && entries[i].key == k;
      assert s'.snapshot.value[i] in s'.snapshot.value;
    }
    forall f ensures HoldsExpiredBody(s.cache, f, clock.now) <==> HasDeadBody(s.cache, f, clock.now) {
    }
  }

  lemma OverIff(meta: Metadata, now: int)
    ensures Expired(meta, now) <==> Over(meta, now)
  {
    ExpiredIff(meta, now);
  }

  // ---------- load ----------

  /** Entry `i` of the list comes into the map: its life is not over, and its body is there and is not that of an
      earlier entry whose life is. */
  predicate Comes(entries: seq<Entry>, files: Files, now: int, i: nat)
    requires i < |entries|
  {
    var path := entries[i].meta.record.bodyPath;
    !Over(entries[i].meta, now) && path in files
    && forall j :: 0 <= j < i ==> entries[j].meta.record.bodyPath == path ==> !Over(entries[j].meta, now)
  }

  predicate Names(entries: seq<Entry>, f: FilePath, now: int) {
    exists i :: 0 <= i < |entries| && entries[i].meta.record.bodyPath == f && Over(entries[i].meta, now)
  }

  /** What comes of `key` from a list: its last entry that comes, or what was there before. */
  ghost predicate LoadsKey(entries: seq<Entry>, before: Cache, files: Files, now: int, after: Cache, key: string) {
    || (exists i: nat :: i < |entries| && entries[i].key == key && Comes(entries, files, now, i)
          && key in after && after[key] == entries[i].meta
          && forall j :: i < j < |entries| && entries[j].key == key ==> !Comes(entries, files, now, j))
    || ((forall i :: 0 <= i < |entries| && entries[i].key == key ==> !Comes(entries, files, now, i))
        && (key in after <==> key in before) && (key in after ==> after[key] == before[key]))
  }

  ghost predicate LoadEffect(
    entries: seq<Entry>, cache: Cache, files: Files, now: int, cache': Cache, files': Files)
  {
    && (forall f :: f in files' <==> f in files && !Names(entries, f, now))
    && (forall f :: f in files' ==> files'[f] == files[f])
    && (forall key :: LoadsKey(entries, cache, files, now, cache', key))
  }

  lemma {:induction false} LoadHasEffect(entries: seq<Entry>, cache: Cache, files: Files, now: int)
    ensures var (cache', files') := LoadEntries(entries, cache, files, now);
      LoadEffect(entries, cache, files, now, cache', files')
    decreases |entries|
  {
    if entries != [] {
      var n := |entries| - 1;
      var init, e := entries[..n], entries[n];
      LoadHasEffect(init, cache, files, now);
      var (mid, left) := LoadEntries(init, cache, files, now);
      OverIff(e.meta, now);
      OneMoreLoads(entries, cache, files, now, mid, left);
    }
  }

  /** One more entry at the end of the list. */
  lemma OneMoreLoads(entries: seq<Entry>, cache: Cache, files: Files, now: int, mid: Cache, left: Files)
    requires entries != [] && LoadEffect(entries[..|entries| - 1], cache, files, now, mid, left)
    ensures var e := entries[|entries| - 1];
      var path := e.meta.record.bodyPath;
      if Over(e.meta, now) then LoadEffect(entries, cache, files, now, mid, left - {path})
      else if path in left then LoadEffect(entries, cache, files, now, mid[e.key := e.meta], left)
      else LoadEffect(entries, cache, files, now, mid, left)
  {
    hide Over;
    var n := |entries| - 1;
    var init, e := entries[..n], entries[n];
    var path := e.meta.record.bodyPath;
    forall i: nat | i < n ensures Comes(entries, files, now, i) <==> Comes(init, files, now, i) {
    }
    forall f ensures Names(entries, f, now) <==> Names(init, f, now) || (path == f && Over(e.meta, now)) {
      if Names(init, f, now) {
        var i :| 0 <= i < n && init[i].meta.record.bodyPath == f && Over(init[i].meta, now);
        assert entries[i] == init[i];
      }
    }
    assert Comes(entries, files, now, n) <==> !Over(e.meta, now) && path in left;
    var after := if !Over(e.meta, now) && path in left then mid[e.key := e.meta] else mid;
    forall key ensures LoadsKey(entries, cache, files, now, after, key) {
      OneMoreLoadsKey(entries, cache, files, now, mid, left, after, key);
    }
  }

  lemma OneMoreLoadsKey(
    entries: seq<Entry>, cache: Cache, files: Files, now: int, mid: Cache, left: Files, after: Cache, key: string)
    requires entries != [] && LoadsKey(entries[..|entries| - 1], cache, files, now, mid, key)
    requires var e, n := entries[|entries| - 1], |entries| - 1;
      && (forall i: nat :: i < n ==> (Comes(entries, files, now, i) <==> Comes(entries[..n], files, now, i)))
      && after == if Comes(entries, files, now, n) then mid[e.key := e.meta] else mid
    ensures LoadsKey(entries, cache, files, now, after, key)
  {
    hide Comes;
    var n := |entries| - 1;
    var init, e := entries[..n], entries[n];
    if Comes(entries, files, now, n) && e.key == key {
      assert entries[n].key == key;
    } else if i: nat :| (
      && i < n && init[i].key == key && Comes(init, files, now, i) && key in mid && mid[key] == init[i].meta
      && forall j :: i < j < n && init[j].key == key ==> !Comes(init, files, now, j))
    {
      forall j | i < j <= n && entries[j].key == key ensures !Comes(entries, files, now, j) {
        assert j < n ==> entries[j] == init[j];
      }
      assert entries[i] == init[i];
    } else {
      forall i | 0 <= i <= n && entries[i].key == key ensures !Comes(entries, files, now, i) {
        assert i < n ==> entries[i] == init[i];
      }
    }
  }

  // ---------- The cleaners ----------

  predicate Concerns(config: Config, shard: Option<nat>, key: string) {
    shard.Some? ==> config.crc(key) % config.shardCount == shard.value
  }

  /** Entry `i` has its body deleted: the cleaner is about its shard, its life is over, and no entry of the map refers
      to the body. */
  predicate Discards(config: Config, shard: Option<nat>, valid: set<FilePath>, entries: seq<Entry>, now: int, i: nat)
    requires i < |entries|
  {
    Concerns(config, shard, entries[i].key) && Over(entries[i].meta, now) && entries[i].meta.record.bodyPath !in valid
  }

  /** Entry `i` is kept: the cleaner is not about its shard, or its life is not over and its body is there. */
  predicate Keeps(
    config: Config, shard: Option<nat>, valid: set<FilePath>, entries: seq<Entry>, files: Files, now: int, i: nat)
    requires i < |entries|
  {
    var path := entries[i].meta.record.bodyPath;
    || !Concerns(config, shard, entries[i].key)
    || (!Over(entries[i].meta, now) && path in files
        && forall j :: 0 <= j < i && Discards(config, shard, valid, entries, now, j) ==>
             entries[j].meta.record.bodyPath != path)
  }

  ghost predicate Discarded(
    config: Config, shard: Option<nat>, valid: set<FilePath>, entries: seq<Entry>, now: int, f: FilePath)
  {
    exists i :: 0 <= i < |entries| && Discards(config, shard, valid, entries, now, i)
      && entries[i].meta.record.bodyPath == f
  }

  /** The entries that are kept, in their order, are `kept`. */
  ghost predicate KeptInOrder(
    config: Config, shard: Option<nat>, valid: set<FilePath>, entries: seq<Entry>, files: Files, now: int,
    kept: seq<Entry>)
    decreases |entries|
  {
    if entries == [] then kept == []
    else
      var n := |entries| - 1;
      if Keeps(config, shard, valid, entries, files, now, n) then
        kept != [] && kept[|kept| - 1] == entries[n]
        && KeptInOrder(config, shard, valid, entries[..n], files, now, kept[..|kept| - 1])
      else KeptInOrder(config, shard, valid, entries[..n], files, now, kept)
  }

  ghost predicate CleanEffect(
    config: Config, shard: Option<nat>, valid: set<FilePath>, entries: seq<Entry>, files: Files, now: int,
    kept: seq<Entry>, files': Files)
  {
    && KeptInOrder(config, shard, valid, entries, files, now, kept)
    && (forall f :: f in files' <==> f in files && !Discarded(config, shard, valid, entries, now, f))
    && (forall f :: f in files' ==> files'[f] == files[f])
  }

  lemma DiscardedLast(
    config: Config, shard: Option<nat>, valid: set<FilePath>, entries: seq<Entry>, now: int, f: FilePath)
    requires entries != []
    ensures var n := |entries| - 1;
      Discarded(config, shard, valid, entries, now, f) <==>
        || Discarded(config, shard, valid, entries[..n], now, f)
        || (Discards(config, shard, valid, entries, now, n) && entries[n].meta.record.bodyPath == f)
  {
    hide Over, Concerns;
    var n := |entries| - 1;
    if Discarded(config, shard, valid, entries[..n], now, f) {
      var i :| 0 <= i < n && Discards(config, shard, valid, entries[..n], now, i)
        && entries[..n][i].meta.record.bodyPath == f;
      assert entries[i] == entries[..n][i] && Discards(config, shard, valid, entries, now, i);
    }
    if i :| 0 <= i < n && Discards(config, shard, valid, entries, now, i) && entries[i].meta.record.bodyPath == f {
      assert entries[i] == entries[..n][i] && Discards(config, shard, valid, entries[..n], now, i);
    }
  }

  lemma KeepsLast(
    config: Config, shard: Option<nat>, valid: set<FilePath>, entries: seq<Entry>, files: Files, left: Files, now: int)
    requires entries != []
    requires forall f ::
      f in left <==> f in files && !Discarded(config, shard, valid, entries[..|entries| - 1], now, f)
    ensures var n := |entries| - 1;
      Keeps(config, shard, valid, entries, files, now, n) <==>
        || !Concerns(config, shard, entries[n].key)
        || (!Over(entries[n].meta, now) && entries[n].meta.record.bodyPath in left)
  {
    hide Over, Concerns;
    var n := |entries| - 1;
    var init, path := entries[..n], entries[n].meta.record.bodyPath;
    forall j | 0 <= j < n
      ensures Discards(config, shard, valid, entries, now, j) <==> Discards(config, shard, valid, init, now, j)
    {
      assert entries[j] == init[j];
    }
    if j :| 0 <= j < n && Discards(config, shard, valid, entries, now, j) && entries[j].meta.record.bodyPath == path {
      assert init[j] == entries[j];
      assert Discarded(config, shard, valid, init, now, path);
    }
  }

  lemma {:induction false} CleanHasEffect(
    config: Config, shard: Option<nat>, valid: set<FilePath>, entries: seq<Entry>, files: Files, now: int)
    ensures var (kept, files') := CleanEntries(config, shard, valid, entries, files, now);
      CleanEffect(config, shard, valid, entries, files, now, kept, files')
    decreases |entries|
  {
    if entries != [] {
      hide Over, Keeps, Discarded, Expired;
      var n := |entries| - 1;
      var e := entries[n];
      CleanHasEffect(config, shard, valid, entries[..n], files, now);
      var (kept, left) := CleanEntries(config, shard, valid, entries[..n], files, now);
      OverIff(e.meta, now);
      assert (kept + [e])[..|kept|] == kept;
      forall f {
        DiscardedLast(config, shard, valid, entries, now, f);
      }
      KeepsLast(config, shard, valid, entries, files, left, now);
    }
  }

  // ---------- Whole files ----------

  /** One timestamp from the future, and the metadata file cannot be read. */
  ghost predicate Legible(stored: seq<StoredEntry>, clock: Clock) {
    forall e :: e in stored ==> e.timestamp * SECOND <= clock.wall
  }

  /** What is read: as old as the time since the timestamp. */
  predicate ReadAs(stored: seq<StoredEntry>, clock: Clock, entries: seq<Entry>) {
    |entries| == |stored| && forall i :: 0 <= i < |stored| ==>
      entries[i] ==
        Entry(stored[i].key, Metadata(stored[i].record, clock.now - (clock.wall - stored[i].timestamp * SECOND)))
  }

  /** What is written: with the second of the writing, if it is not from the future. */
  predicate WrittenAs(entries: seq<Entry>, clock: Clock, stored: seq<StoredEntry>) {
    |stored| == |entries| && forall i :: 0 <= i < |entries| ==>
      && stored[i].key == entries[i].key && stored[i].record == entries[i].meta.record
      && (entries[i].meta.createdAt <= clock.now ==> stored[i].timestamp == clock.wall / SECOND)
  }

  ghost predicate LoadPassEffect(before: State, clock: Clock, after: State) {
    if before.snapshot.None? || !Legible(before.snapshot.value, clock) then after == before
    else
      && after.snapshot == before.snapshot
      && exists entries ::
           && ReadAs(before.snapshot.value, clock, entries)
           && LoadEffect(entries, before.cache, before.files, clock.now, after.cache, after.files)
  }

  lemma LoadPassHasEffect(s: State, clock: Clock)
    ensures LoadPassEffect(s, clock, LoadPass(s, clock))
  {
    hide LoadEffect;
    if s.snapshot.Some? {
      LegibleIff(s.snapshot.value, clock);
      if Legible(s.snapshot.value, clock) {
        var entries := ReadEntries(s.snapshot.value, clock);
        assert ReadAs(s.snapshot.value, clock, entries);
        LoadHasEffect(entries, s.cache, s.files, clock.now);
      }
    }
  }

  lemma LegibleIff(stored: seq<StoredEntry>, clock: Clock)
    ensures Readable(stored, clock) <==> Legible(stored, clock)
  {
    forall i | 0 <= i < |stored| ensures stored[i] in stored {
    }
  }

  /** The map stays. The entries that are kept are written again, in their order; discarded bodies go, and in the
      directory of the one shard all bodies that no entry of the map refers to. */
  ghost predicate CleanPassEffect(config: Config, before: State, shard: Option<nat>, clock: Clock, after: State) {
    var valid := set k | k in before.cache :: before.cache[k].record.bodyPath;
    if before.snapshot.None? || !Legible(before.snapshot.value, clock) then after == before
    else
      && after.cache == before.cache && after.snapshot.Some? && OnlyLess(before.files, after.files)
      && exists entries, kept ::
           && ReadAs(before.snapshot.value, clock, entries)
           && KeptInOrder(config, shard, valid, entries, before.files, clock.now, kept)
           && WrittenAs(kept, clock, after.snapshot.value)
           && forall f :: f in before.files ==>
                (f in after.files <==>
                  && !Discarded(config, shard, valid, entries, clock.now, f)
                  && !(shard.Some? && f.dir == ShardDir(shard.value) && f.ext == "bin" && f !in valid))
  }

  lemma CleanPassHasEffect(config: Config, s: State, shard: Option<nat>, clock: Clock)
    ensures CleanPassEffect(config, s, shard, clock, CleanPass(config, s, shard, clock))
  {
    hide KeptInOrder, Discarded, ShardDir;
    if s.snapshot.Some? {
      LegibleIff(s.snapshot.value, clock);
      if Legible(s.snapshot.value, clock) {
        var valid := set k | k in s.cache :: s.cache[k].record.bodyPath;
        assert valid == Paths(s.cache);
        var entries := ReadEntries(s.snapshot.value, clock);
        var kept := CleanEntries(config, shard, valid, entries, s.files, clock.now).0;
        CleanHasEffect(config, shard, valid, entries, s.files, clock.now);
        assert ReadAs(s.snapshot.value, clock, entries) && WrittenAs(kept, clock, WriteEntries(kept, clock));
      }
    }
  }

  /** Files only go, and none changes. */
  predicate OnlyLess(before: Files, after: Files) {
    forall f :: f in after ==> f in before && after[f] == before[f]
  }

  // ---------- The orphan cleanup ----------

  /** In the directories whose name begins with "shard-" exactly the bodies that some entry refers to stay, and no
      temporary file; everything else is untouched. */
  ghost predicate OrphanEffect(cache: Cache, files: Files, files': Files) {
    && (forall f :: f in files' ==> f in files && files'[f] == files[f])
    && (forall f :: f in files && !("shard-" <= f.dir) ==> f in files')
    && (forall f :: f in files && "shard-" <= f.dir && f.ext == "bin" ==>
          (f in files' <==> exists k :: k in cache && cache[k].record.bodyPath == f))
    && (forall f :: f in files && "shard-" <= f.dir && f.ext == "tmp" ==> f !in files')
    && (forall f :: f in files && f.ext != "bin" && f.ext != "tmp" ==> f in files')
  }

  lemma OrphansHaveEffect(s: State)
    ensures OrphanPass(s).cache == s.cache && OrphanPass(s).snapshot == s.snapshot
    ensures OrphanEffect(s.cache, s.files, OrphanPass(s).files)
  {
  }

  // ---------- get ----------

  /** A hit is an entry whose life is not over, with what its file decodes to, and changes nothing. A miss leaves no
      entry of the key and no body, neither where its entry had it nor where it would be; without persistence that is
      all it does. */
  ghost predicate GetEffect(
    config: Config, before: State, key: string, withBucket: bool, clock: Clock, after: State, result: Lookup)
  {
    var held := key in before.cache;
    var path := if held then before.cache[key].record.bodyPath else BodyPath(config, key);
    && (result.Hit? <==>
          && held && !Over(before.cache[key], clock.now) && path in before.files
          && Decode(config.codec, before.files[path]).Some?)
    && (result.Hit? ==>
          var record := before.cache[key].record;
          && after == before && Decode(config.codec, before.files[path]) == Some(result.body)
          && result.headers == record.headers && result.status == record.status
          && result.originalEncoding == record.originalEncoding)
    && (result == Miss ==>
          && after.cache == before.cache - {key} && path !in after.files && OnlyLess(before.files, after.files)
          && (!(config.persistent && withBucket) ==>
                after.snapshot == before.snapshot && after.files == before.files - {path}))
  }

  lemma RemovalHasEffect(config: Config, s: State, key: string, withBucket: bool, clock: Clock, s': State)
    requires AfterRemoval(config, s, key, withBucket, clock, s')
    ensures s'.cache == s.cache && OnlyLess(s.files, s'.files)
  {
    hide Expired, HoldsExpiredBody, ShardDir;
    if config.persistent && withBucket {
      var shard := Some(ShardId(config, key));
      var mid :| StorePass(s, clock, mid) && s' == CleanPass(config, mid, shard, clock);
      if mid.snapshot.Some? && Readable(mid.snapshot.value, clock) {
        CleanHasEffect(
          config, shard, Paths(mid.cache), ReadEntries(mid.snapshot.value, clock), mid.files, clock.now);
      }
    }
  }

  lemma GetHasEffect(
    config: Config, s: State, key: string, withBucket: bool, clock: Clock, s': State, result: Lookup)
    requires GetPass(config, s, key, withBucket, clock, s', result)
    ensures GetEffect(config, s, key, withBucket, clock, s', result)
  {
    hide Decode, BodyPath, Over, Expired;
    var held := key in s.cache;
    if held {
      OverIff(s.cache[key], clock.now);
    }
    if result == Miss {
      var path := if held then s.cache[key].record.bodyPath else BodyPath(config, key);
      var removed := s.(cache := s.cache - {key}, files := s.files - {path});
      if path !in s.files {
        assert s.files - {path} == s.files;
      }
      if !held {
        assert s.cache - {key} == s.cache;
      }
      if held || path in s.files {
        assert AfterRemoval(config, removed, key, withBucket, clock, s');
        RemovalHasEffect(config, removed, key, withBucket, clock, s');
      }
    }
  }

  // ---------- put ----------

  /** The entry of a put: everything in it comes from the response, the configuration, or the clock. */
  ghost predicate EntryOfPut(
    config: Config, key: string, response: Response, raw: Bytes, now: int, meta: Metadata)
  {
    && meta.createdAt == now && meta.record.headers == response.headers && meta.record.status == response.status
    && meta.record.ttl == config.ttl && meta.record.bodyPath == BodyPath(config, key) && meta.record.bodySize == |raw|
    && (forall h: nat :: FirstLine(response.headers, "content-encoding", h) ==>
          meta.record.originalEncoding == Some(response.headers[h].1))
    && (meta.record.originalEncoding.Some? ==> exists h: nat :: FirstLine(response.headers, "content-encoding", h))
  }

  /** One entry comes in; one, and an oldest one, goes out if and only if the map was full, not empty, and did not have
      the key. */
  ghost predicate OneInOneOut(config: Config, before: Cache, key: string, after: Cache) {
    && key in after
    && (forall k :: k in after && k != key ==> k in before && after[k] == before[k])
    && if |before| >= config.capacity && key !in before && before != map[] then
         exists v ::
           && v in before && v !in after && (forall k :: k in before && k != v ==> k in after)
           && forall k :: k in before ==> before[v].createdAt <= before[k].createdAt
       else forall k :: k in before ==> k in after
  }

  /** `f` was the body of an entry that has gone. */
  ghost predicate BodyOfGone(before: Cache, after: Cache, f: FilePath) {
    exists v :: v in before && v !in after && before[v].record.bodyPath == f
  }

  /** The body is in its file, the temporary file is gone, and no other file has changed; files may go. */
  predicate OnlyOwnBody(before: Files, path: FilePath, raw: Bytes, after: Files) {
    && TempOf(path) !in after && (path in after ==> after[path] == raw)
    && forall f :: f in after && f != path ==> f in before && after[f] == before[f]
  }

  /** What becomes of the map and the files in an accepted put; without persistence that is all it does. */
  ghost predicate PutEffect(
    config: Config, before: State, key: string, response: Response, body: Bytes, withBucket: bool, clock: Clock,
    after: State)
  {
    var raw := if config.strategy == All then config.codec.gzip(body) else Some(body);
    var path := BodyPath(config, key);
    && raw.Some? && OneInOneOut(config, before.cache, key, after.cache)
    && EntryOfPut(config, key, response, raw.value, clock.now, after.cache[key])
    && OnlyOwnBody(before.files, path, raw.value, after.files)
    && (!(config.persistent && withBucket) ==>
          && after.snapshot == before.snapshot
          && forall f :: f == path || (f in before.files && f != TempOf(path)) ==>
               f in after.files || BodyOfGone(before.cache, after.cache, f))
  }

  lemma InsertedCache(
    config: Config, s: State, key: string, response: Response, raw: Bytes, victim: Option<string>, now: int, s': State)
    requires victim.Some? <==> MustEvict(config, s.cache, key)
    requires victim.Some? ==> IsOldest(s.cache, victim.value)
    requires s' == Inserted(config, s, key, response, raw, victim, now)
    ensures OneInOneOut(config, s.cache, key, s'.cache) && EntryOfPut(config, key, response, raw, now, s'.cache[key])
    ensures victim.Some? ==> victim.value !in s'.cache
  {
    hide BodyPath;
    NewMetadataIsEntry(config, key, response, raw, now);
    hide NewMetadata, EntryOfPut;
    assert s'.cache[key] == NewMetadata(config, key, response, raw, now);
    if victim.Some? {
      assert victim.value in s.cache && victim.value !in s'.cache;
    }
  }

  lemma NewMetadataIsEntry(config: Config, key: string, response: Response, raw: Bytes, now: int)
    ensures EntryOfPut(config, key, response, raw, now, NewMetadata(config, key, response, raw, now))
  {
    hide BodyPath;
    ValueOfFirstLine(response.headers, "content-encoding");
  }

  lemma InsertedHasEffect(
    config: Config, s: State, key: string, response: Response, body: Bytes, raw: Bytes, victim: Option<string>,
    clock: Clock, s': State, withBucket: bool)
    requires Encode(config.strategy, config.codec, body) == Some(raw)
    requires victim.Some? <==> MustEvict(config, s.cache, key)
    requires victim.Some? ==> IsOldest(s.cache, victim.value)
    requires s' == Inserted(config, s, key, response, raw, victim, clock.now)
    ensures PutEffect(config, s, key, response, body, withBucket, clock, s')
  {
    BodyPathIsAShardBin(config, key);
    InsertedCache(config, s, key, response, raw, victim, clock.now, s');
    hide BodyPath, OneInOneOut, EntryOfPut, IsOldest, MustEvict, NewMetadata;
    if victim.Some? {
      assert victim.value in s.cache by { OldestIsThere(s.cache, victim.value); }
    }
  }

  lemma OldestIsThere(cache: Cache, victim: string)
    requires IsOldest(cache, victim)
    ensures victim in cache
  {
  }

  /** Persistence after an insertion takes files away, and no more. */
  lemma LessHasEffect(
    config: Config, s: State, key: string, response: Response, body: Bytes, clock: Clock, mid: State, s': State)
    requires PutEffect(config, s, key, response, body, true, clock, mid) && config.persistent
    requires s'.cache == mid.cache && OnlyLess(mid.files, s'.files)
    ensures PutEffect(config, s, key, response, body, true, clock, s')
  {
    hide BodyPath, OneInOneOut, EntryOfPut, BodyOfGone;
  }

  lemma PutHasEffect(
    config: Config, s: State, key: string, response: Response, body: Bytes, withBucket: bool, clock: Clock, s': State)
    requires PutPass(config, s, key, response, body, withBucket, clock, s', Stored)
    ensures PutEffect(config, s, key, response, body, withBucket, clock, s')
  {
    hide BodyPath, PutEffect, AfterRemoval, Inserted, NoStore, HoldsExpiredBody;
    var raw := Encode(config.strategy, config.codec, body).value;
    var victim :| PutWithVictim(config, s, key, response, raw, victim, withBucket, clock, s');
    var inserted := Inserted(config, s, key, response, raw, victim, clock.now);
    InsertedHasEffect(config, s, key, response, body, raw, victim, clock, inserted, withBucket);
    var mid :| Inserts(config, s, key, response, raw, victim, withBucket, clock, mid)
      && if config.persistent && withBucket then StorePass(mid, clock, s') else s' == mid;
    if victim.Some? {
      RemovalHasEffect(config, inserted, key, withBucket, clock, mid);
    }
    if config.persistent && withBucket {
      LessHasEffect(config, s, key, response, body, clock, inserted, s');
    } else {
      NoPersistenceNoChange(config, inserted, key, withBucket, clock, mid);
    }
  }

  lemma NoPersistenceNoChange(config: Config, s: State, key: string, withBucket: bool, clock: Clock, s': State)
    requires !(config.persistent && withBucket)
    ensures AfterRemoval(config, s, key, withBucket, clock, s') ==> s' == s
  {
  }
}
