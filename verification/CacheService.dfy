/** The cache object: `SccMemoryCache` together with `CachePersistence` and the files they own. Each method is
    the source's control flow and is proved to do what `CacheSpec` says. */
module CacheService {
  import opened Wrappers
  import opened CacheTypes
  import opened CacheSpec
  import opened CacheEffects

  lemma ExpiredEntrySeen(entries: seq<Entry>, seen: Cache, key: string, meta: Metadata, files: Files, now: int)
    requires ListsUnexpired(entries, seen, now) && key !in seen && Expired(meta, now)
    ensures ListsUnexpired(entries, seen[key := meta], now)
    ensures WithoutExpiredBodies(seen[key := meta], files, now) ==
            WithoutExpiredBodies(seen, files, now) - {meta.record.bodyPath}
  {
    var more := seen[key := meta];
    assert key in more && more[key] == meta;
    assert forall k :: k in seen ==> k in more && more[k] == seen[k];
    forall p ensures HoldsExpiredBody(more, p, now) <==> p == meta.record.bodyPath || HoldsExpiredBody(seen, p, now) {
    }
  }

  lemma UnexpiredEntrySeen(entries: seq<Entry>, seen: Cache, key: string, meta: Metadata, files: Files, now: int)
    requires ListsUnexpired(entries, seen, now) && key !in seen && !Expired(meta, now)
    ensures ListsUnexpired(entries + [Entry(key, meta)], seen[key := meta], now)
    ensures WithoutExpiredBodies(seen[key := meta], files, now) == WithoutExpiredBodies(seen, files, now)
  {
    var listed, more := entries + [Entry(key, meta)], seen[key := meta];
    assert listed[|entries|].key == key;
    forall k | k in more && !Expired(more[k], now) ensures exists i :: 0 <= i < |listed| && listed[i].key == k {
      if k != key {
        var i :| 0 <= i < |entries| && entries[i].key == k;
        assert listed[i].key == k;
      }
    }
    assert forall k :: k in seen ==> k in more && more[k] == seen[k];
  }

  class SccMemoryCache {
    const config: Config
    var cache: Cache
    var files: Files
    var snapshot: Option<seq<StoredEntry>>

    constructor (config: Config)
      ensures this.config == config && Contents() == State(map[], map[], None)
    {
      this.config := config;
      cache, files, snapshot := map[], map[], None;
    }

    function Contents(): State
      reads this
    {
      State(cache, files, snapshot)
    }

    method RemoveFile(path: FilePath)
      modifies this`files
      ensures files == old(files) - {path}
    {
      if path in files {
        files := files - {path};
      }
    }

    /** `CachePersistence::store` */
    method Store(clock: Clock)
      modifies this
      ensures StorePass(old(Contents()), clock, Contents())
      ensures StoreEffect(old(Contents()), clock, Contents())
    {
      var entries: seq<Entry> := [];
      var left := cache.Keys;
      assert files == WithoutExpiredBodies(map[], files, clock.now);
      while left != {}
        invariant cache == old(cache) && left <= cache.Keys
        invariant ListsUnexpired(entries, cache - left, clock.now)
        invariant files == WithoutExpiredBodies(cache - left, old(files), clock.now)
        decreases left
      {
        var key :| key in left;
        var meta := cache[key];
        ghost var seen := cache - left;
        assert cache - (left - {key}) == seen[key := meta];
        if Expired(meta, clock.now) {
          RemoveFile(meta.record.bodyPath);
          ExpiredEntrySeen(entries, seen, key, meta, old(files), clock.now);
        } else {
          UnexpiredEntrySeen(entries, seen, key, meta, old(files), clock.now);
          entries := entries + [Entry(key, meta)];
        }
        left := left - {key};
      }
      assert cache - left == cache;
      snapshot := Some(WriteEntries(entries, clock));
      StoreHasEffect(old(Contents()), clock, Contents());
    }

    /** `CachePersistence::load` */
    method Load(clock: Clock) returns (ok: bool)
      modifies this
      ensures Contents() == LoadPass(old(Contents()), clock)
      ensures LoadPassEffect(old(Contents()), clock, Contents())
      ensures ok <==> old(snapshot).None? || Readable(old(snapshot).value, clock)
    {
      LoadPassHasEffect(Contents(), clock);
      if snapshot.None? {
        return true;
      }
      if !Readable(snapshot.value, clock) {
        return false;
      }
      var entries := ReadEntries(snapshot.value, clock);
      for i := 0 to |entries|
        invariant snapshot == old(snapshot)
        invariant (cache, files) == LoadEntries(entries[..i], old(cache), old(files), clock.now)
      {
        var e := entries[i];
        assert entries[..i + 1][..i] == entries[..i];
        if Expired(e.meta, clock.now) {
          RemoveFile(e.meta.record.bodyPath);
        } else if e.meta.record.bodyPath in files {
          cache := cache[e.key := e.meta];
        }
      }
      assert entries[..|entries|] == entries;
      return true;
    }

    /** The loop over the entries of the metadata file, shared by the two cleaners. */
    method CleanEntryLoop(shard: Option<nat>, valid: set<FilePath>, entries: seq<Entry>, clock: Clock)
      returns (kept: seq<Entry>)
      modifies this`files
      ensures (kept, files) == CleanEntries(config, shard, valid, entries, old(files), clock.now)
    {
      kept := [];
      for i := 0 to |entries|
        invariant (kept, files) == CleanEntries(config, shard, valid, entries[..i], old(files), clock.now)
      {
        var e := entries[i];
        assert entries[..i + 1][..i] == entries[..i];
        if shard.Some? && ShardId(config, e.key) != shard.value {
          kept := kept + [e];
        } else if Expired(e.meta, clock.now) {
          if e.meta.record.bodyPath in files && e.meta.record.bodyPath !in valid {
            RemoveFile(e.meta.record.bodyPath);
          }
          assert e.meta.record.bodyPath in valid || files == files - {e.meta.record.bodyPath};
        } else if e.meta.record.bodyPath in files {
          kept := kept + [e];
        }
      }
      assert entries[..|entries|] == entries;
    }

    /** `clean_stale_metadata` */
    method CleanStaleMetadata(clock: Clock) returns (ok: bool)
      modifies this
      ensures Contents() == CleanPass(config, old(Contents()), None, clock)
      ensures CleanPassEffect(config, old(Contents()), None, clock, Contents())
      ensures ok <==> old(snapshot).None? || Readable(old(snapshot).value, clock)
    {
      CleanPassHasEffect(config, Contents(), None, clock);
      if snapshot.None? {
        return true;
      }
      var valid := Paths(cache);
      if !Readable(snapshot.value, clock) {
        return false;
      }
      var kept := CleanEntryLoop(None, valid, ReadEntries(snapshot.value, clock), clock);
      snapshot := Some(WriteEntries(kept, clock));
      return true;
    }

    /** `clean_stale_metadata_with_key` */
    method CleanStaleMetadataWithKey(key: string, clock: Clock) returns (ok: bool)
      modifies this
      ensures Contents() == CleanPass(config, old(Contents()), Some(ShardId(config, key)), clock)
      ensures CleanPassEffect(
        config, old(Contents()), Some(config.crc(key) % config.shardCount), clock, Contents())
      ensures ok <==> old(snapshot).None? || Readable(old(snapshot).value, clock)
    {
      CleanPassHasEffect(config, Contents(), Some(ShardId(config, key)), clock);
      hide CleanPassEffect;
      if snapshot.None? {
        return true;
      }
      var shard := ShardId(config, key);
      var valid := Paths(cache);
      if !Readable(snapshot.value, clock) {
        return false;
      }
      var kept := CleanEntryLoop(Some(shard), valid, ReadEntries(snapshot.value, clock), clock);
      ghost var cleaned := files;
      var listed := set p | p in files && p.dir == ShardDir(shard);
      while listed != {}
        invariant cache == old(cache) && snapshot == old(snapshot)
        invariant forall p :: p in listed ==> p.dir == ShardDir(shard)
        invariant forall p :: p in cleaned && p.dir == ShardDir(shard) && p.ext == BIN && p !in valid ==>
          p in listed || p !in files
        invariant forall p :: p in files ==> p in cleaned && files[p] == cleaned[p]
        invariant forall p :: p in cleaned && p !in files ==> p.dir == ShardDir(shard) && p.ext == BIN && p !in valid
        decreases listed
      {
        var p :| p in listed;
        if p.ext == BIN && p !in valid {
          RemoveFile(p);
        }
        listed := listed - {p};
      }
      assert files == WithoutOrphansIn(ShardDir(shard), valid, cleaned);
      snapshot := Some(WriteEntries(kept, clock));
      return true;
    }

    /** One round of `orphaned_files_cleanup`. */
    method CleanOrphanedFiles()
      modifies this`files
      ensures Contents() == OrphanPass(old(Contents()))
      ensures forall f :: f in files ==> f in old(files) && files[f] == old(files)[f]
      ensures forall f :: f in old(files) && "shard-" <= f.dir && f.ext == "bin" ==>
        (f in files <==> exists k :: k in cache && cache[k].record.bodyPath == f)
      ensures forall f :: f in old(files) && "shard-" <= f.dir && f.ext == "tmp" ==> f !in files
      ensures forall f :: f in old(files) && !("shard-" <= f.dir && (f.ext == "bin" || f.ext == "tmp")) ==> f in files
    {
      var valid := Paths(cache);
      var dirs := set p | p in files :: p.dir;
      while dirs != {}
        invariant forall p :: p in old(files) && p !in files ==> Stray(p, valid)
        invariant forall p :: p in files ==> p in old(files) && files[p] == old(files)[p]
        invariant forall p :: p in files && Stray(p, valid) ==> p.dir in dirs
        decreases dirs
      {
        var dir :| dir in dirs;
        if IsShardDir(dir) {
          SweepDir(dir, valid);
        }
        dirs := dirs - {dir};
      }
      assert files == OrphanPass(old(Contents())).files;
      OrphansHaveEffect(old(Contents()));
    }

    /** The loop over one directory. */
    method SweepDir(dir: string, valid: set<FilePath>)
      requires IsShardDir(dir)
      modifies this`files
      ensures forall p :: p in files <==> p in old(files) && !(p.dir == dir && Stray(p, valid))
      ensures forall p :: p in files ==> files[p] == old(files)[p]
    {
      var listed := set p | p in files && p.dir == dir;
      while listed != {}
        invariant forall p :: p in listed ==> p.dir == dir
        invariant forall p :: p in old(files) && p !in files ==> p.dir == dir && Stray(p, valid)
        invariant forall p :: p in files ==> p in old(files) && files[p] == old(files)[p]
        invariant forall p :: p in files && p.dir == dir && Stray(p, valid) ==> p in listed
        decreases listed
      {
        var p :| p in listed;
        if p.ext == BIN && p !in valid {
          RemoveFile(p);
        }
        if p.ext == TMP {
          RemoveFile(p);
        }
        listed := listed - {p};
      }
    }

    /** What the orphan cleanup deletes: stray temporary files and bodies no entry refers to. */
    predicate Stray(p: FilePath, valid: set<FilePath>) {
      IsShardDir(p.dir) && ((p.ext == BIN && p !in valid) || p.ext == TMP)
    }

    method HandlePersistenceAfterRemoval(key: string, withBucket: bool, clock: Clock)
      modifies this
      ensures AfterRemoval(config, old(Contents()), key, withBucket, clock, Contents())
    {
      if config.persistent && withBucket {
        Store(clock);
        ghost var mid := Contents();
        assert StorePass(old(Contents()), clock, mid);
        var _ := CleanStaleMetadataWithKey(key, clock);
      }
    }

    /** `get_cache`, from the cache key on. */
    method GetCache(key: string, withBucket: bool, clock: Clock) returns (result: Lookup)
      modifies this
      ensures GetPass(config, old(Contents()), key, withBucket, clock, Contents(), result)
      ensures GetEffect(config, old(Contents()), key, withBucket, clock, Contents(), result)
    {
      result := LookUp(key, withBucket, clock);
      GetHasEffect(config, old(Contents()), key, withBucket, clock, Contents(), result);
    }

    method LookUp(key: string, withBucket: bool, clock: Clock) returns (result: Lookup)
      modifies this
      ensures GetPass(config, old(Contents()), key, withBucket, clock, Contents(), result)
    {
      if key !in cache {
        var path := BodyPath(config, key);
        if path in files {
          RemoveFile(path);
          HandlePersistenceAfterRemoval(key, withBucket, clock);
        }
        return Miss;
      }
      var meta := cache[key];
      var path := meta.record.bodyPath;
      if Expired(meta, clock.now) {
        cache := cache - {key};
        RemoveFile(path);
        HandlePersistenceAfterRemoval(key, withBucket, clock);
        return Miss;
      }
      if path !in files {
        cache := cache - {key};
        assert files - {path} == files;
        HandlePersistenceAfterRemoval(key, withBucket, clock);
        return Miss;
      }
      var decoded := Decode(config.codec, files[path]);
      if decoded.None? {
        cache := cache - {key};
        RemoveFile(path);
        HandlePersistenceAfterRemoval(key, withBucket, clock);
        return Miss;
      }
      return Hit(meta.record.headers, meta.record.status, decoded.value, meta.record.originalEncoding);
    }

    /** `min_by_key` over the creation times; ties are broken by the map's order. */
    method Oldest() returns (victim: string)
      requires cache != map[]
      ensures IsOldest(cache, victim)
    {
      victim :| victim in cache;
      var left := cache.Keys - {victim};
      while left != {}
        invariant left <= cache.Keys && victim in cache
        invariant forall k :: k in cache && k !in left ==> cache[victim].createdAt <= cache[k].createdAt
        decreases left
      {
        var key :| key in left;
        if cache[key].createdAt < cache[victim].createdAt {
          victim := key;
        }
        left := left - {key};
      }
    }

    /** `put_cache`, from the cache key on. */
    method PutCache(key: string, response: Response, body: Bytes, withBucket: bool, clock: Clock)
      returns (outcome: PutOutcome)
      modifies this
      ensures PutPass(config, old(Contents()), key, response, body, withBucket, clock, Contents(), outcome)
      ensures outcome == Skipped <==> TooLong(config, body) || ForbidsStoring(response.headers)
      ensures outcome == Failed <==>
        && !TooLong(config, body) && !ForbidsStoring(response.headers)
        && config.strategy == All && config.codec.gzip(body).None?
      ensures outcome != Stored ==> Contents() == old(Contents())
      ensures outcome == Stored ==>
        PutEffect(config, old(Contents()), key, response, body, withBucket, clock, Contents())
    {
      DecisionIff(config, response, body);
      if config.maxFileSize.Some? && |body| > config.maxFileSize.value {
        return Skipped;
      }
      if NoStore(response) {
        return Skipped;
      }
      var encoded := Encode(config.strategy, config.codec, body);
      if encoded.None? {
        return Failed;
      }
      StoreEncoded(key, response, encoded.value, withBucket, clock);
      PutHasEffect(config, old(Contents()), key, response, body, withBucket, clock, Contents());
      return Stored;
    }

    /** The locked region of `put_cache`: make room if needed, insert, and say which body has to go. */
    method InsertEntry(key: string, meta: Metadata) returns (victim: Option<string>, evictedPath: Option<FilePath>)
      modifies this`cache
      ensures victim.Some? <==> MustEvict(config, old(cache), key)
      ensures victim.None? ==> evictedPath.None? && cache == old(cache)[key := meta]
      ensures victim.Some? ==>
        && IsOldest(old(cache), victim.value)
        && evictedPath == Some(old(cache)[victim.value].record.bodyPath)
        && cache == (old(cache) - {victim.value})[key := meta]
    {
      victim, evictedPath := None, None;
      if |cache| >= config.capacity && key !in cache && cache != map[] {
        var oldest := Oldest();
        victim, evictedPath := Some(oldest), Some(cache[oldest].record.bodyPath);
        cache := cache - {oldest};
      }
      cache := cache[key := meta];
    }

    /** `put_cache` from the first write on: temporary file, rename, locked insertion, deletion of the evicted
        body, persistence. */
    method StoreEncoded(key: string, response: Response, raw: Bytes, withBucket: bool, clock: Clock)
      modifies this
      ensures exists victim ::
        PutWithVictim(config, old(Contents()), key, response, raw, victim, withBucket, clock, Contents())
    {
      var path := BodyPath(config, key);
      WriteBody(path, raw);
      var victim, evictedPath := InsertEntry(key, NewMetadata(config, key, response, raw, clock.now));
      if evictedPath.Some? {
        RemoveFile(evictedPath.value);
      }
      assert Contents() == Inserted(config, old(Contents()), key, response, raw, victim, clock.now);
      if evictedPath.Some? {
        HandlePersistenceAfterRemoval(key, withBucket, clock);
      }
      ghost var mid := Contents();
      assert Inserts(config, old(Contents()), key, response, raw, victim, withBucket, clock, mid);
      if config.persistent && withBucket {
        Store(clock);
      }
      assert PutWithVictim(config, old(Contents()), key, response, raw, victim, withBucket, clock, Contents());
    }

    /** A body is written to a temporary file, which is then renamed over the body file. */
    method WriteBody(path: FilePath, raw: Bytes)
      modifies this`files
      ensures files == (old(files) - {TempOf(path)})[path := raw]
    {
      var temp := TempOf(path);
      files := files[temp := raw];
      files := (files - {temp})[path := files[temp]];
    }
  }
}
