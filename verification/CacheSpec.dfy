/** What each whole cache operation does to the map, the files and the metadata file, at one clock reading and
    without file errors. `CacheService` is proved against these definitions. */
module CacheSpec {
  import opened Wrappers
  import opened CacheTypes
  import DomainLabels

  type Cache = map<string, Metadata>
  type Files = map<FilePath, Bytes>

  /** Everything a cache instance owns: the mutex-guarded map, the files below the cache directory, and the
      metadata file if there is one. */
  datatype State = State(cache: Cache, files: Files, snapshot: Option<seq<StoredEntry>>)

  datatype Lookup =
    | Hit(headers: Headers, status: nat, body: Bytes, originalEncoding: Option<string>)
    | Miss

  datatype PutOutcome = Stored | Skipped | Failed

  function Paths(cache: Cache): (paths: set<FilePath>)
    ensures forall p :: p in paths <==> exists k :: k in cache && cache[k].record.bodyPath == p
  {
    set k | k in cache :: cache[k].record.bodyPath
  }

  // ---------- store ----------

  /** `entries` lists the unexpired entries of `cache`, each once, in any order. */
  ghost predicate ListsUnexpired(entries: seq<Entry>, cache: Cache, now: int) {
    && (forall k :: 0 <= k < |entries| ==>
          entries[k].key in cache && cache[entries[k].key] == entries[k].meta && !Expired(entries[k].meta, now))
    && (forall a, b :: 0 <= a < b < |entries| ==> entries[a].key != entries[b].key)
    && (forall key :: key in cache && !Expired(cache[key], now) ==>
          exists k :: 0 <= k < |entries| && entries[k].key == key)
  }

  predicate HoldsExpiredBody(cache: Cache, p: FilePath, now: int) {
    exists k :: k in cache && cache[k].record.bodyPath == p && Expired(cache[k], now)
  }

  function WithoutExpiredBodies(cache: Cache, files: Files, now: int): Files {
    map p | p in files && !HoldsExpiredBody(cache, p, now) :: files[p]
  }

  /** `store`: bodies of expired entries go, their entries stay in the map; the rest is written out. */
  ghost predicate StorePass(s: State, clock: Clock, s': State) {
    && s'.cache == s.cache
    && s'.files == WithoutExpiredBodies(s.cache, s.files, clock.now)
    && exists entries ::
         ListsUnexpired(entries, s.cache, clock.now) && s'.snapshot == Some(WriteEntries(entries, clock))
  }

  // ---------- load ----------

  /** The loop of `load` over `entries`. */
  function LoadEntries(entries: seq<Entry>, cache: Cache, files: Files, now: int): (Cache, Files)
    decreases |entries|
  {
    if entries == [] then (cache, files)
    else
      var e := entries[|entries| - 1];
      var (loaded, left) := LoadEntries(entries[..|entries| - 1], cache, files, now);
      if Expired(e.meta, now) then (loaded, left - {e.meta.record.bodyPath})
      else if e.meta.record.bodyPath in left then (loaded[e.key := e.meta], left)
      else (loaded, left)
  }

  function LoadPass(s: State, clock: Clock): State {
    if s.snapshot.None? || !Readable(s.snapshot.value, clock) then s
    else
      var (cache, files) := LoadEntries(ReadEntries(s.snapshot.value, clock), s.cache, s.files, clock.now);
      State(cache, files, s.snapshot)
  }

  // ---------- cleaning ----------

  /** The loop of `clean_stale_metadata` (every shard) and of `clean_stale_metadata_with_key` (one shard):
      the entries that are kept, and the files afterwards. */
  function CleanEntries(
    config: Config, shard: Option<nat>, valid: set<FilePath>, entries: seq<Entry>, files: Files, now: int)
    : (seq<Entry>, Files)
    decreases |entries|
  {
    if entries == [] then ([], files)
    else
      var e := entries[|entries| - 1];
      var path := e.meta.record.bodyPath;
      var (kept, left) := CleanEntries(config, shard, valid, entries[..|entries| - 1], files, now);
      if shard.Some? && ShardId(config, e.key) != shard.value then (kept + [e], left)
      else if Expired(e.meta, now) then (kept, if path in valid then left else left - {path})
      else if path in left then (kept + [e], left)
      else (kept, left)
  }

  function WithoutOrphansIn(dir: string, valid: set<FilePath>, files: Files): Files {
    map p | p in files && !(p.dir == dir && p.ext == BIN && p !in valid) :: files[p]
  }

  /** Both cleaners. An absent or unreadable metadata file ends them before they change anything. */
  function CleanPass(config: Config, s: State, shard: Option<nat>, clock: Clock): State {
    if s.snapshot.None? || !Readable(s.snapshot.value, clock) then s
    else
      var valid := Paths(s.cache);
      var (kept, files) :=
        CleanEntries(config, shard, valid, ReadEntries(s.snapshot.value, clock), s.files, clock.now);
      State(
        s.cache,
        if shard.Some? then WithoutOrphansIn(ShardDir(shard.value), valid, files) else files,
        Some(WriteEntries(kept, clock)))
  }

  /** `orphaned_files_cleanup`, one round. */
  function OrphanPass(s: State): State {
    var valid := Paths(s.cache);
    s.(files := map p | p in s.files &&
      !(IsShardDir(p.dir) && ((p.ext == BIN && p !in valid) || p.ext == TMP)) :: s.files[p])
  }

  // ---------- get ----------

  /** `handle_persistence_after_removal` */
  ghost predicate AfterRemoval(config: Config, s: State, key: string, withBucket: bool, clock: Clock, s': State) {
    if config.persistent && withBucket then
      exists mid :: StorePass(s, clock, mid) && s' == CleanPass(config, mid, Some(ShardId(config, key)), clock)
    else s' == s
  }

  ghost predicate GetPass(
    config: Config, s: State, key: string, withBucket: bool, clock: Clock, s': State, result: Lookup)
  {
    if key !in s.cache then
      && result == Miss
      && if BodyPath(config, key) in s.files then
           AfterRemoval(config, s.(files := s.files - {BodyPath(config, key)}), key, withBucket, clock, s')
         else s' == s
    else
      var meta := s.cache[key];
      var path := meta.record.bodyPath;
      var removed := s.(cache := s.cache - {key}, files := s.files - {path});
      if Expired(meta, clock.now) || path !in s.files then
        result == Miss && AfterRemoval(config, removed, key, withBucket, clock, s')
      else match Decode(config.codec, s.files[path])
        case None => result == Miss && AfterRemoval(config, removed, key, withBucket, clock, s')
        case Some(body) =>
          && result == Hit(meta.record.headers, meta.record.status, body, meta.record.originalEncoding)
          && s' == s
  }

  // ---------- put ----------

  /** The tests before anything is written. */
  function PutDecision(config: Config, response: Response, body: Bytes): PutOutcome {
    if config.maxFileSize.Some? && |body| > config.maxFileSize.value then Skipped
    else if NoStore(response) then Skipped
    else if Encode(config.strategy, config.codec, body).None? then Failed
    else Stored
  }

  predicate NoStore(response: Response) {
    var value := HeaderValue(response.headers, "cache-control");
    value.Some? && Contains(DomainLabels.ToLowercase(value.value), "no-store")
  }

  function NewMetadata(config: Config, key: string, response: Response, raw: Bytes, now: int): Metadata {
    Metadata(
      Record(response.headers, response.status, config.ttl, BodyPath(config, key), |raw|,
        HeaderValue(response.headers, "content-encoding")),
      now)
  }

  /** A key whose entry is oldest. */
  ghost predicate IsOldest(cache: Cache, victim: string) {
    victim in cache && forall k :: k in cache ==> cache[victim].createdAt <= cache[k].createdAt
  }

  predicate MustEvict(config: Config, cache: Cache, key: string) {
    |cache| >= config.capacity && key !in cache && cache != map[]
  }

  /** The state after the locked region of `put_cache` and the deletion of the evicted body. */
  function Inserted(
    config: Config, s: State, key: string, response: Response, raw: Bytes, victim: Option<string>, now: int): State
    requires victim.Some? ==> victim.value in s.cache
  {
    var path := BodyPath(config, key);
    var files := (s.files - {TempOf(path)})[path := raw];
    var meta := NewMetadata(config, key, response, raw, now);
    if victim.None? then State(s.cache[key := meta], files, s.snapshot)
    else State((s.cache - {victim.value})[key := meta], files - {s.cache[victim.value].record.bodyPath}, s.snapshot)
  }

  ghost predicate PutPass(
    config: Config, s: State, key: string, response: Response, body: Bytes, withBucket: bool, clock: Clock,
    s': State, outcome: PutOutcome)
  {
    && outcome == PutDecision(config, response, body)
    && if outcome != Stored then s' == s
       else exists victim ::
         PutWithVictim(config, s, key, response, Encode(config.strategy, config.codec, body).value, victim, withBucket,
           clock, s')
  }

  ghost predicate PutWithVictim(
    config: Config, s: State, key: string, response: Response, raw: Bytes, victim: Option<string>, withBucket: bool,
    clock: Clock, s': State)
  {
    && (victim.Some? <==> MustEvict(config, s.cache, key))
    && (victim.Some? ==> IsOldest(s.cache, victim.value))
    && exists mid ::
         Inserts(config, s, key, response, raw, victim, withBucket, clock, mid)
         && if config.persistent && withBucket then StorePass(mid, clock, s') else s' == mid
  }

  /** Up to the deletion of the evicted body and the persistence pass that follows it. */
  ghost predicate Inserts(
    config: Config, s: State, key: string, response: Response, raw: Bytes, victim: Option<string>, withBucket: bool,
    clock: Clock, s': State)
    requires victim.Some? ==> victim.value in s.cache
  {
    var inserted := Inserted(config, s, key, response, raw, victim, clock.now);
    if victim.Some? then AfterRemoval(config, inserted, key, withBucket, clock, s') else s' == inserted
  }
}
