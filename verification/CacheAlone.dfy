/** A task that runs alone, while no file operation fails and the clock stands still, does what the whole operation
    does: the steps of `CacheTasks` and the operations of `CacheSpec` are the same programs. */
module CacheAlone {
  import opened Wrappers
  import opened CacheTypes
  import opened CacheSpec
  import CacheService
  import opened CacheTasks

  // ---------- Runs of one task ----------

  /** No file operation fails in this step. */
  ghost predicate Succeeds(w: World, p: Proc, w': World, p': Proc) {
    match p
    case Delete(path, _) => path !in w'.files
    case ReadBody(key, meta, _) => !(p'.RemoveKey? && meta.record.bodyPath in w.files && !p'.next.Delete?)
    case WriteTemp(_) => p'.RenameTemp?
    case RenameTemp(_) => p'.Insert?
    case WriteMeta(_, _) => p'.RenameMeta?
    case RenameMeta(_) => w'.metaTemp.None?
    case CleanRead(shard, valid, next) =>
      w.snapshot.Some? && Readable(w.snapshot.value, w.clock) ==>
        p' == CleanLoop(shard, valid, w.clock.now, ReadEntries(w.snapshot.value, w.clock), [], next)
    case ScanDir(dir, valid, sweepTemps, next) => p' == ScanFiles(InDir(w.files, dir), valid, sweepTemps, next)
    case LoadStart => w.snapshot.Some? && Readable(w.snapshot.value, w.clock) ==> p'.LoadLock?
    case _ => true
  }

  ghost predicate AloneStep(config: Config, w: World, t: nat, w': World) {
    t in w.tasks && exists x, p' ::
      Exec(config, w, t, w.tasks[t], x, p') && Succeeds(w, w.tasks[t], x, p') && w' == x.(tasks := w.tasks[t := p'])
  }

  ghost predicate AloneStepAt(config: Config, run: seq<World>, t: nat, i: nat)
    requires i + 1 < |run|
  {
    AloneStep(config, run[i], t, run[i + 1])
  }

  /** Task `t` does `p` from its first step to its last, and ends with `result`. */
  ghost predicate RunsAlone(config: Config, run: seq<World>, t: nat, p: Proc, result: TaskResult) {
    && |run| > 0 && (forall i :: 0 <= i < |run| - 1 ==> AloneStepAt(config, run, t, i))
    && t in run[0].tasks && run[0].tasks[t] == p
    && t in run[|run| - 1].tasks && run[|run| - 1].tasks[t] == Finished(result)
  }

  function StateOf(w: World): State {
    State(w.cache, w.files, w.snapshot)
  }

  // ---------- What is still to come ----------

  /** The state, the temporary metadata file, and the time. */
  datatype Scene = Scene(s: State, temp: Meta, clock: Clock)

  function SceneOf(w: World): Scene {
    Scene(StateOf(w), w.metaTemp, w.clock)
  }

  function WithSnapshot(c: Scene, files: Files, entries: seq<Entry>): Scene {
    Scene(State(c.s.cache, files, Some(WriteEntries(entries, c.clock))), None, c.clock)
  }

  function WithFiles(c: Scene, files: Files): Scene {
    c.(s := c.s.(files := files))
  }

  function StoredWith(c: Scene, entries: seq<Entry>): Scene {
    WithSnapshot(c, WithoutExpiredBodies(c.s.cache, c.s.files, c.clock.now), entries)
  }

  /** The scan of a `store` has listed the unexpired entries outside `todo` and deleted the bodies of the others. */
  ghost predicate ScannedSoFar(c: Scene, todo: set<string>, listed: seq<Entry>) {
    && todo <= c.s.cache.Keys && ListsUnexpired(listed, c.s.cache - todo, c.clock.now)
    && forall p :: p in c.s.files ==> !HoldsExpiredBody(c.s.cache - todo, p, c.clock.now)
  }

  function CleanedFrom(
    config: Config, c: Scene, shard: Option<nat>, valid: set<FilePath>, left: seq<Entry>, kept: seq<Entry>): Scene
  {
    var (more, files) := CleanEntries(config, shard, valid, left, c.s.files, c.clock.now);
    WithSnapshot(c, if shard.Some? then WithoutOrphansIn(ShardDir(shard.value), valid, files) else files, kept + more)
  }

  function Cleaned(config: Config, c: Scene, shard: Option<nat>, valid: set<FilePath>): Scene {
    if c.s.snapshot.None? || !Readable(c.s.snapshot.value, c.clock) then c
    else CleanedFrom(config, c, shard, valid, ReadEntries(c.s.snapshot.value, c.clock), [])
  }

  predicate Sweeps(f: FilePath, valid: set<FilePath>, sweepTemps: bool) {
    (f.ext == BIN && f !in valid) || (sweepTemps && f.ext == TMP)
  }

  function WithoutSwept(files: Files, among: set<FilePath>, valid: set<FilePath>, sweepTemps: bool): Files {
    map f | f in files && !(f in among && Sweeps(f, valid, sweepTemps)) :: files[f]
  }

  function InDir(files: Files, dir: string): set<FilePath> {
    set f | f in files && f.dir == dir
  }

  function WithoutSweptDirs(files: Files, dirs: set<string>, valid: set<FilePath>): Files {
    map f | f in files && !(f.dir in dirs && Sweeps(f, valid, true)) :: files[f]
  }

  /** `p`, begun in `c` and left to itself, ends in `e` with `r`. */
  ghost predicate EndsAs(config: Config, c: Scene, p: Proc, e: State, r: TaskResult)
    decreases p, 0
  {
    match p
    case Finished(result) => e == c.s && r == result
    case IfExists(path, yes, no) =>
      if path in c.s.files then EndsAs(config, c, yes, e, r) else EndsAs(config, c, no, e, r)
    case Delete(path, next) => EndsAs(config, WithFiles(c, c.s.files - {path}), next, e, r)
    case RemoveKey(key, next) => EndsAs(config, c.(s := c.s.(cache := c.s.cache - {key})), next, e, r)
    case LookUp(key, withBucket) =>
      r.Found? && r.key == key && GetPass(config, c.s, key, withBucket, c.clock, e, r.result)
    case ReadBody(key, meta, withBucket) => ReadEndsAs(config, c, key, meta, withBucket, e, r)
    case WriteTemp(job) => r == PutEnded(Stored) && PutEndsAs(config, c, job, e)
    case RenameTemp(job) =>
      var temp := TempOf(BodyPath(config, job.key));
      r == PutEnded(Stored) && (temp in c.s.files && c.s.files[temp] == job.raw ==> PutEndsAs(config, c, job, e))
    case Insert(job, createdAt) =>
      r == PutEnded(Stored) && (Renamed(config, c, job) && createdAt == c.clock.now ==> PutEndsAs(config, c, job, e))
    case StoreLock(next) => StoresThen(config, c, next, e, r)
    case StoreScan(now, todo, listed, next) =>
      now == c.clock.now && ScannedSoFar(c, todo, listed) ==> StoresThen(config, c, next, e, r)
    case WriteMeta(entries, next) => EndsAs(config, WithSnapshot(c, c.s.files, entries), next, e, r)
    case RenameMeta(next) =>
      c.temp.Some? ==> EndsAs(config, Scene(c.s.(snapshot := c.temp), None, c.clock), next, e, r)
    case CleanStart(shard, next) => EndsAs(config, Cleaned(config, c, shard, Paths(c.s.cache)), next, e, r)
    case CleanPaths(shard, next) => EndsAs(config, Cleaned(config, c, shard, Paths(c.s.cache)), next, e, r)
    case CleanRead(shard, valid, next) => EndsAs(config, Cleaned(config, c, shard, valid), next, e, r)
    case CleanLoop(shard, valid, now, left, kept, next) =>
      now == c.clock.now ==> EndsAs(config, CleanedFrom(config, c, shard, valid, left, kept), next, e, r)
    case ScanDir(dir, valid, sweepTemps, next) =>
      EndsAs(config, WithFiles(c, WithoutSwept(c.s.files, InDir(c.s.files, dir), valid, sweepTemps)), next, e, r)
    case ScanFiles(files, valid, sweepTemps, next) =>
      EndsAs(config, WithFiles(c, WithoutSwept(c.s.files, files, valid, sweepTemps)), next, e, r)
    case OrphanStart => r == Swept && e == OrphanPass(c.s)
    case OrphanDirs(valid, dirs) =>
      r == Swept && e == c.s.(files := WithoutSweptDirs(c.s.files, dirs, valid))
    case LoadStart => r == Loaded && e == LoadPass(c.s, c.clock)
    case LoadLock(left) => r == Loaded && LoadEndsAs(c, left, e)
    case LoadLoop(now, left) => r == Loaded && (now == c.clock.now ==> LoadEndsAs(c, left, e))
    case LoadInsert(entry, now, left) =>
      r == Loaded && (now == c.clock.now ==>
        LoadEndsAs(c.(s := c.s.(cache := c.s.cache[entry.key := entry.meta])), left, e))
  }

  /** The `store` that is under way, and then `next`. */
  ghost predicate StoresThen(config: Config, c: Scene, next: Proc, e: State, r: TaskResult)
    decreases next, 1
  {
    exists entries ::
      ListsUnexpired(entries, c.s.cache, c.clock.now) && EndsAs(config, StoredWith(c, entries), next, e, r)
  }

  ghost predicate ReadEndsAs(
    config: Config, c: Scene, key: string, meta: Metadata, withBucket: bool, e: State, r: TaskResult)
  {
    var path := meta.record.bodyPath;
    var removed := c.s.(cache := c.s.cache - {key}, files := c.s.files - {path});
    && r.Found? && r.key == key
    && match (if path in c.s.files then Decode(config.codec, c.s.files[path]) else None)
       case None => r.result == Miss && AfterRemoval(config, removed, key, withBucket, c.clock, e)
       case Some(body) =>
         && r.result == Hit(meta.record.headers, meta.record.status, body, meta.record.originalEncoding)
         && e == c.s
  }

  ghost predicate PutEndsAs(config: Config, c: Scene, job: PutRecord, e: State) {
    exists victim :: PutWithVictim(config, c.s, job.key, job.response, job.raw, victim, job.withBucket, c.clock, e)
  }

  predicate Renamed(config: Config, c: Scene, job: PutRecord) {
    var path := BodyPath(config, job.key);
    path in c.s.files && c.s.files[path] == job.raw && TempOf(path) !in c.s.files
  }

  predicate LoadEndsAs(c: Scene, left: seq<Entry>, e: State) {
    var (cache, files) := LoadEntries(left, c.s.cache, c.s.files, c.clock.now);
    e == State(cache, files, c.s.snapshot)
  }

  // ---------- Lists from the front ----------

  /** Cleaning the first entry and then the rest is cleaning all. */
  lemma {:induction false} CleanFirst(
    config: Config, shard: Option<nat>, valid: set<FilePath>, entries: seq<Entry>, files: Files, now: int)
    requires entries != []
    ensures var (first, rest) := CleanEntries(config, shard, valid, entries[..1], files, now);
      var (more, left) := CleanEntries(config, shard, valid, entries[1..], rest, now);
      CleanEntries(config, shard, valid, entries, files, now) == (first + more, left)
    decreases |entries|
  {
    var n := |entries| - 1;
    if n == 0 {
      assert entries[..1] == entries && entries[1..] == [];
      var first := CleanEntries(config, shard, valid, entries, files, now).0;
      assert first + [] == first;
    } else {
      var init := entries[..n];
      hide Expired, ShardId;
      CleanFirst(config, shard, valid, init, files, now);
      assert init[..1] == entries[..1] && init[1..] == entries[1..][..n - 1];
      var (first, rest) := CleanEntries(config, shard, valid, entries[..1], files, now);
      var (more, left) := CleanEntries(config, shard, valid, init[1..], rest, now);
      assert entries[1..][n - 1] == entries[n];
      assert (first + more) + [entries[n]] == first + (more + [entries[n]]);
    }
  }

  lemma {:induction false} LoadFirst(entries: seq<Entry>, cache: Cache, files: Files, now: int)
    requires entries != []
    ensures var (first, rest) := LoadEntries(entries[..1], cache, files, now);
      LoadEntries(entries, cache, files, now) == LoadEntries(entries[1..], first, rest, now)
    decreases |entries|
  {
    var n := |entries| - 1;
    if n == 0 {
      assert entries[..1] == entries && entries[1..] == [];
    } else {
      var init := entries[..n];
      LoadFirst(init, cache, files, now);
      assert init[..1] == entries[..1] && init[1..] == entries[1..][..n - 1];
    }
  }

  // ---------- One step backwards ----------

  lemma DeleteIfThereEnds(config: Config, c: Scene, path: FilePath, next: Proc, e: State, r: TaskResult)
    ensures EndsAs(config, c, DeleteIfThere(path, next), e, r) <==>
      EndsAs(config, WithFiles(c, c.s.files - {path}), next, e, r)
  {
    assert EndsAs(config, c, Delete(path, next), e, r) <==>
      EndsAs(config, WithFiles(c, c.s.files - {path}), next, e, r);
    if path !in c.s.files {
      assert c.s.files - {path} == c.s.files;
    }
  }

  lemma StoreLockEnds(config: Config, c: Scene, next: Proc, e: State, r: TaskResult)
    ensures EndsAs(config, c, StoreLock(next), e, r) <==> StoresThen(config, c, next, e, r)
  {
  }

  lemma CleanStartEnds(config: Config, c: Scene, shard: Option<nat>, next: Proc, e: State, r: TaskResult)
    ensures EndsAs(config, c, CleanStart(shard, next), e, r) <==>
      EndsAs(config, Cleaned(config, c, shard, Paths(c.s.cache)), next, e, r)
  {
  }

  ghost predicate RemovalThen(
    config: Config, c: Scene, key: string, withBucket: bool, mid: Scene, next: Proc, e: State, r: TaskResult)
  {
    && AfterRemoval(config, c.s, key, withBucket, c.clock, mid.s) && mid.clock == c.clock
    && EndsAs(config, mid, next, e, r)
  }

  lemma PersistEnds(config: Config, c: Scene, key: string, withBucket: bool, next: Proc, e: State, r: TaskResult)
    returns (mid: Scene)
    requires EndsAs(config, c, Persist(config, key, withBucket, next), e, r)
    ensures RemovalThen(config, c, key, withBucket, mid, next, e, r)
  {
    mid := c;
    hide EndsAs, ListsUnexpired, Paths, CleanPass, Cleaned;
    if config.persistent && withBucket {
      var shard := Some(ShardId(config, key));
      StoreLockEnds(config, c, CleanStart(shard, next), e, r);
      var entries :| ListsUnexpired(entries, c.s.cache, c.clock.now)
        && EndsAs(config, StoredWith(c, entries), CleanStart(shard, next), e, r);
      var stored := StoredWith(c, entries);
      assert StorePass(c.s, c.clock, stored.s);
      CleanStartEnds(config, stored, shard, next, e, r);
      mid := Cleaned(config, stored, shard, Paths(stored.s.cache));
      CleanedIsCleanPass(config, stored, shard);
    }
  }

  lemma CleanedIsCleanPass(config: Config, c: Scene, shard: Option<nat>)
    ensures Cleaned(config, c, shard, Paths(c.s.cache)).s == CleanPass(config, c.s, shard, c.clock)
    ensures Cleaned(config, c, shard, Paths(c.s.cache)).clock == c.clock
  {
    if c.s.snapshot.Some? && Readable(c.s.snapshot.value, c.clock) {
      var (kept, files) := CleanEntries(
        config, shard, Paths(c.s.cache), ReadEntries(c.s.snapshot.value, c.clock), c.s.files, c.clock.now);
      assert [] + kept == kept;
    }
  }

  lemma MissEnds(config: Config, c: Scene, key: string, withBucket: bool, e: State, r: TaskResult)
    requires EndsAs(config, c, MissAfter(config, key, withBucket), e, r)
    ensures r == Found(key, Miss) && AfterRemoval(config, c.s, key, withBucket, c.clock, e)
  {
    hide AfterRemoval;
    var mid := PersistEnds(config, c, key, withBucket, Finished(Found(key, Miss)), e, r);
  }

  // ---------- get_cache ----------

  lemma RemoveKeyEnds(config: Config, c: Scene, key: string, next: Proc, e: State, r: TaskResult)
    ensures EndsAs(config, c, RemoveKey(key, next), e, r) <==>
      EndsAs(config, c.(s := c.s.(cache := c.s.cache - {key})), next, e, r)
  {
  }

  lemma ReadBodyEnds(config: Config, w: World, p: Proc, w': World, p': Proc, e: State, r: TaskResult)
    requires p.ReadBody? && ReadBodyStep(config, w, p, w', p') && Succeeds(w, p, w', p')
    requires EndsAs(config, SceneOf(w'), p', e, r)
    ensures ReadEndsAs(config, SceneOf(w), p.key, p.meta, p.withBucket, e, r)
  {
    assert !MissAfter(config, p.key, p.withBucket).Delete?;
    hide AfterRemoval, Decode, MissAfter;
    var c, path, miss := SceneOf(w), p.meta.record.bodyPath, MissAfter(config, p.key, p.withBucket);
    if p'.RemoveKey? {
      RemoveKeyEnds(config, c, p.key, p'.next, e, r);
      var gone := c.(s := c.s.(cache := c.s.cache - {p.key}));
      if path in w.files {
        assert p'.next == Delete(path, miss);
        assert EndsAs(config, WithFiles(gone, c.s.files - {path}), miss, e, r);
        MissEnds(config, WithFiles(gone, c.s.files - {path}), p.key, p.withBucket, e, r);
      } else {
        assert c.s.files - {path} == c.s.files;
        MissEnds(config, gone, p.key, p.withBucket, e, r);
      }
    }
  }

  lemma FoundEnds(
    config: Config, c: Scene, key: string, withBucket: bool, e: State, r: TaskResult)
    requires key in c.s.cache
    requires EndsAs(config, c, AfterFound(config, key, c.s.cache[key], withBucket, c.clock.now), e, r)
    ensures r.Found? && r.key == key && GetPass(config, c.s, key, withBucket, c.clock, e, r.result)
  {
    hide AfterRemoval, Decode, MissAfter, EndsAs, Expired, DeleteIfThere;
    var meta := c.s.cache[key];
    var path, miss := meta.record.bodyPath, MissAfter(config, key, withBucket);
    var gone := c.(s := c.s.(cache := c.s.cache - {key}));
    if Expired(meta, c.clock.now) {
      RemoveKeyEnds(config, c, key, DeleteIfThere(path, miss), e, r);
      DeleteIfThereEnds(config, gone, path, miss, e, r);
      MissEnds(config, WithFiles(gone, c.s.files - {path}), key, withBucket, e, r);
    } else {
      var read := ReadBody(key, meta, withBucket);
      IfExistsEnds(config, c, path, read, RemoveKey(key, miss), e, r);
      if path in c.s.files {
        ReadBodyMeans(config, c, key, meta, withBucket, e, r);
      } else {
        RemoveKeyEnds(config, c, key, miss, e, r);
        assert c.s.files - {path} == c.s.files;
        MissEnds(config, gone, key, withBucket, e, r);
      }
    }
  }

  lemma IfExistsEnds(config: Config, c: Scene, path: FilePath, yes: Proc, no: Proc, e: State, r: TaskResult)
    ensures EndsAs(config, c, IfExists(path, yes, no), e, r) <==>
      if path in c.s.files then EndsAs(config, c, yes, e, r) else EndsAs(config, c, no, e, r)
  {
  }

  lemma ReadBodyMeans(
    config: Config, c: Scene, key: string, meta: Metadata, withBucket: bool, e: State, r: TaskResult)
    ensures EndsAs(config, c, ReadBody(key, meta, withBucket), e, r) <==>
      ReadEndsAs(config, c, key, meta, withBucket, e, r)
  {
  }

  lemma UnknownEnds(config: Config, c: Scene, key: string, withBucket: bool, e: State, r: TaskResult)
    requires key !in c.s.cache && EndsAs(config, c, AfterUnknown(config, key, withBucket), e, r)
    ensures r.Found? && r.key == key && GetPass(config, c.s, key, withBucket, c.clock, e, r.result)
  {
    hide AfterRemoval, MissAfter, BodyPath;
    var path, miss := BodyPath(config, key), MissAfter(config, key, withBucket);
    if path in c.s.files {
      assert EndsAs(config, c, Delete(path, miss), e, r);
      assert EndsAs(config, WithFiles(c, c.s.files - {path}), miss, e, r);
      MissEnds(config, WithFiles(c, c.s.files - {path}), key, withBucket, e, r);
    }
  }

  lemma LookUpEnds(config: Config, w: World, p: Proc, w': World, p': Proc, e: State, r: TaskResult)
    requires p.LookUp? && LookUpStep(config, w, p, w', p') && EndsAs(config, SceneOf(w'), p', e, r)
    ensures EndsAs(config, SceneOf(w), p, e, r)
  {
    hide AfterFound, AfterUnknown, GetPass;
    if p.key in w.cache {
      FoundEnds(config, SceneOf(w), p.key, p.withBucket, e, r);
    } else {
      UnknownEnds(config, SceneOf(w), p.key, p.withBucket, e, r);
    }
  }

  // ---------- put_cache ----------

  lemma AfterPutEnds(config: Config, c: Scene, job: PutRecord, e: State, r: TaskResult)
    requires EndsAs(config, c, StoreAfterPut(config, job), e, r)
    ensures r == PutEnded(Stored)
    ensures if config.persistent && job.withBucket then StorePass(c.s, c.clock, e) else e == c.s
  {
    hide ListsUnexpired;
    if config.persistent && job.withBucket {
      StoreLockEnds(config, c, Finished(PutEnded(Stored)), e, r);
    }
  }

  /** The entry is in, under a body that is in place. */
  lemma InsertedIsThere(
    config: Config, c: Scene, job: PutRecord, createdAt: int, victim: Option<string>)
    requires Renamed(config, c, job) && createdAt == c.clock.now && (victim.Some? ==> victim.value in c.s.cache)
    ensures var cache := if victim.Some? then c.s.cache - {victim.value} else c.s.cache;
      var files := if victim.Some? then c.s.files - {c.s.cache[victim.value].record.bodyPath} else c.s.files;
      Inserted(config, c.s, job.key, job.response, job.raw, victim, c.clock.now) ==
        State(cache[job.key := Metadata(RecordOf(config, job), createdAt)], files, c.s.snapshot)
  {
    hide BodyPath;
    var path := BodyPath(config, job.key);
    assert (c.s.files - {TempOf(path)})[path := job.raw] == c.s.files;
  }

  lemma InsertionEnds(config: Config, c: Scene, job: PutRecord, createdAt: int, e: State, r: TaskResult)
    requires !MustEvict(config, c.s.cache, job.key)
    requires var meta := Metadata(RecordOf(config, job), createdAt);
      EndsAs(config, c.(s := c.s.(cache := c.s.cache[job.key := meta])), StoreAfterPut(config, job), e, r)
    ensures r == PutEnded(Stored)
    ensures Renamed(config, c, job) && createdAt == c.clock.now ==> PutEndsAs(config, c, job, e)
  {
    hide EndsAs, StorePass, RecordOf, Inserted, BodyPath;
    var mid := c.(s := c.s.(cache := c.s.cache[job.key := Metadata(RecordOf(config, job), createdAt)]));
    AfterPutEnds(config, mid, job, e, r);
    if Renamed(config, c, job) && createdAt == c.clock.now {
      InsertedIsThere(config, c, job, createdAt, None);
      assert Inserts(config, c.s, job.key, job.response, job.raw, None, job.withBucket, c.clock, mid.s);
      assert PutWithVictim(config, c.s, job.key, job.response, job.raw, None, job.withBucket, c.clock, e);
    }
  }

  lemma EvictionEnds(
    config: Config, c: Scene, job: PutRecord, createdAt: int, victim: string, e: State, r: TaskResult)
    requires MustEvict(config, c.s.cache, job.key) && IsOldest(c.s.cache, victim)
    requires var meta := Metadata(RecordOf(config, job), createdAt);
      EndsAs(config, c.(s := c.s.(cache := (c.s.cache - {victim})[job.key := meta])),
        DeleteIfThere(
          c.s.cache[victim].record.bodyPath,
          Persist(config, job.key, job.withBucket, StoreAfterPut(config, job))), e, r)
    ensures r == PutEnded(Stored)
    ensures Renamed(config, c, job) && createdAt == c.clock.now ==> PutEndsAs(config, c, job, e)
  {
    hide EndsAs, StorePass, RecordOf, Inserted, BodyPath, AfterRemoval, Persist, StoreAfterPut, DeleteIfThere;
    var key, path, rest := job.key, c.s.cache[victim].record.bodyPath, StoreAfterPut(config, job);
    var put := c.(s := c.s.(cache := (c.s.cache - {victim})[key := Metadata(RecordOf(config, job), createdAt)]));
    DeleteIfThereEnds(config, put, path, Persist(config, key, job.withBucket, rest), e, r);
    var gone := WithFiles(put, c.s.files - {path});
    var mid := PersistEnds(config, gone, key, job.withBucket, rest, e, r);
    AfterPutEnds(config, mid, job, e, r);
    if Renamed(config, c, job) && createdAt == c.clock.now {
      InsertedIsThere(config, c, job, createdAt, Some(victim));
      assert Inserts(config, c.s, key, job.response, job.raw, Some(victim), job.withBucket, c.clock, mid.s);
      assert PutWithVictim(config, c.s, key, job.response, job.raw, Some(victim), job.withBucket, c.clock, e);
    }
  }

  /** What an insertion does, and what is left to do after it. */
  lemma InsertLeaves(config: Config, w: World, p: Proc, w': World, p': Proc) returns (victim: Option<string>)
    requires p.Insert? && PutStep(config, w, p, w', p')
    ensures victim.Some? <==> MustEvict(config, w.cache, p.job.key)
    ensures victim.Some? ==> IsOldest(w.cache, victim.value)
    ensures var meta, after := Metadata(RecordOf(config, p.job), p.createdAt), StoreAfterPut(config, p.job);
      var cache := if victim.Some? then w.cache - {victim.value} else w.cache;
      && SceneOf(w') == Scene(State(cache[p.job.key := meta], w.files, w.snapshot), w.metaTemp, w.clock)
      && p' == if victim.Some? then
                 DeleteIfThere(w.cache[victim.value].record.bodyPath,
                   Persist(config, p.job.key, p.job.withBucket, after))
               else after
  {
    hide StoreAfterPut, Persist, DeleteIfThere, BodyPath, RecordOf;
    victim := None;
    if MustEvict(config, w.cache, p.job.key) {
      var v :| v in w.cache && IsOldest(w.cache, v)
        && w' == w.(cache := (w.cache - {v})[p.job.key := Metadata(RecordOf(config, p.job), p.createdAt)])
        && p' == DeleteIfThere(
             w.cache[v].record.bodyPath, Persist(config, p.job.key, p.job.withBucket, StoreAfterPut(config, p.job)));
      victim := Some(v);
    }
  }

  lemma InsertEnds(config: Config, w: World, p: Proc, w': World, p': Proc, e: State, r: TaskResult)
    requires p.Insert? && PutStep(config, w, p, w', p') && EndsAs(config, SceneOf(w'), p', e, r)
    ensures EndsAs(config, SceneOf(w), p, e, r)
  {
    hide PutStep, EndsAs, StoreAfterPut, Persist, DeleteIfThere, BodyPath, RecordOf, Renamed, PutEndsAs;
    var c := SceneOf(w);
    var victim := InsertLeaves(config, w, p, w', p');
    if victim.Some? {
      EvictionEnds(config, c, p.job, p.createdAt, victim.value, e, r);
    } else {
      InsertionEnds(config, c, p.job, p.createdAt, e, r);
    }
    InsertMeans(config, c, p.job, p.createdAt, e, r);
  }

  lemma InsertMeans(config: Config, c: Scene, job: PutRecord, createdAt: int, e: State, r: TaskResult)
    ensures EndsAs(config, c, Insert(job, createdAt), e, r) <==>
      && r == PutEnded(Stored)
      && (Renamed(config, c, job) && createdAt == c.clock.now ==> PutEndsAs(config, c, job, e))
  {
  }

  /** Before the rename the temporary file is of no account. */
  lemma TempIsOfNoAccount(config: Config, c: Scene, files: Files, job: PutRecord, e: State)
    requires PutEndsAs(config, WithFiles(c, files), job, e)
    requires var path := BodyPath(config, job.key);
      (files - {TempOf(path)})[path := job.raw] == (c.s.files - {TempOf(path)})[path := job.raw]
    ensures PutEndsAs(config, c, job, e)
  {
    hide BodyPath, AfterRemoval, StorePass, NewMetadata;
    var victim :| PutWithVictim(
      config, WithFiles(c, files).s, job.key, job.response, job.raw, victim, job.withBucket, c.clock, e);
    assert Inserted(config, WithFiles(c, files).s, job.key, job.response, job.raw, victim, c.clock.now) ==
      Inserted(config, c.s, job.key, job.response, job.raw, victim, c.clock.now);
    var mid :| Inserts(
        config, WithFiles(c, files).s, job.key, job.response, job.raw, victim, job.withBucket, c.clock, mid)
      && if config.persistent && job.withBucket then StorePass(mid, c.clock, e) else e == mid;
    assert Inserts(config, c.s, job.key, job.response, job.raw, victim, job.withBucket, c.clock, mid);
    assert PutWithVictim(config, c.s, job.key, job.response, job.raw, victim, job.withBucket, c.clock, e);
  }

  lemma WriteMeans(config: Config, c: Scene, job: PutRecord, e: State, r: TaskResult)
    ensures EndsAs(config, c, WriteTemp(job), e, r) <==> r == PutEnded(Stored) && PutEndsAs(config, c, job, e)
    ensures var temp := TempOf(BodyPath(config, job.key));
      EndsAs(config, c, RenameTemp(job), e, r) <==>
        && r == PutEnded(Stored)
        && (temp in c.s.files && c.s.files[temp] == job.raw ==> PutEndsAs(config, c, job, e))
  {
    hide PutEndsAs, BodyPath;
  }

  lemma WriteEnds(config: Config, w: World, p: Proc, w': World, p': Proc, e: State, r: TaskResult)
    requires p.WriteTemp? && PutStep(config, w, p, w', p') && Succeeds(w, p, w', p')
    requires EndsAs(config, SceneOf(w'), p', e, r)
    ensures EndsAs(config, SceneOf(w), p, e, r)
  {
    BodyPathKeepsTemp(config, p.job.key);
    hide EndsAs, BodyPath, PutEndsAs;
    WriteMeans(config, SceneOf(w'), p.job, e, r);
    WriteMeans(config, SceneOf(w), p.job, e, r);
    TempIsOfNoAccount(config, SceneOf(w), w'.files, p.job, e);
  }

  lemma RenameEnds(config: Config, w: World, p: Proc, w': World, p': Proc, e: State, r: TaskResult)
    requires p.RenameTemp? && PutStep(config, w, p, w', p') && Succeeds(w, p, w', p')
    requires EndsAs(config, SceneOf(w'), p', e, r)
    ensures EndsAs(config, SceneOf(w), p, e, r)
  {
    BodyPathKeepsTemp(config, p.job.key);
    hide EndsAs, BodyPath, PutEndsAs;
    var path := BodyPath(config, p.job.key);
    WriteMeans(config, SceneOf(w), p.job, e, r);
    InsertMeans(config, SceneOf(w'), p.job, w.clock.now, e, r);
    if TempOf(path) in w.files && w.files[TempOf(path)] == p.job.raw {
      TempIsOfNoAccount(config, SceneOf(w), w'.files, p.job, e);
    }
  }

  lemma BodyPathKeepsTemp(config: Config, key: string)
    ensures TempOf(BodyPath(config, key)) != BodyPath(config, key)
  {
  }

  // ---------- store ----------

  lemma StoreScanMeans(
    config: Config, c: Scene, now: int, todo: set<string>, listed: seq<Entry>, next: Proc, e: State, r: TaskResult)
    ensures EndsAs(config, c, StoreScan(now, todo, listed, next), e, r) <==>
      (now == c.clock.now && ScannedSoFar(c, todo, listed) ==> StoresThen(config, c, next, e, r))
  {
  }

  lemma WriteMetaMeans(config: Config, c: Scene, entries: seq<Entry>, next: Proc, e: State, r: TaskResult)
    ensures EndsAs(config, c, WriteMeta(entries, next), e, r) <==>
      EndsAs(config, WithSnapshot(c, c.s.files, entries), next, e, r)
  {
  }

  lemma ScanBegins(c: Scene)
    ensures ScannedSoFar(c, c.s.cache.Keys, [])
  {
    assert c.s.cache - c.s.cache.Keys == map[];
  }

  lemma ScanIsOver(config: Config, c: Scene, listed: seq<Entry>, next: Proc, e: State, r: TaskResult)
    requires ScannedSoFar(c, {}, listed) && EndsAs(config, WithSnapshot(c, c.s.files, listed), next, e, r)
    ensures StoresThen(config, c, next, e, r)
  {
    hide EndsAs, ListsUnexpired;
    assert c.s.cache - {} == c.s.cache;
    assert WithoutExpiredBodies(c.s.cache, c.s.files, c.clock.now) == c.s.files;
    assert StoredWith(c, listed) == WithSnapshot(c, c.s.files, listed);
  }

  lemma ScannedOneMore(c: Scene, todo: set<string>, listed: seq<Entry>, k: string)
    requires ScannedSoFar(c, todo, listed) && k in todo
    ensures var meta := c.s.cache[k];
      if Expired(meta, c.clock.now) then
        ScannedSoFar(WithFiles(c, c.s.files - {meta.record.bodyPath}), todo - {k}, listed)
      else ScannedSoFar(c, todo - {k}, listed + [Entry(k, meta)])
  {
    hide ListsUnexpired, Expired, HoldsExpiredBody;
    var cache, files, now := c.s.cache, c.s.files, c.clock.now;
    var seen, meta := cache - todo, cache[k];
    assert cache - (todo - {k}) == seen[k := meta];
    assert WithoutExpiredBodies(seen, files, now) == files;
    if Expired(meta, now) {
      CacheService.ExpiredEntrySeen(listed, seen, k, meta, files, now);
      assert WithoutExpiredBodies(seen[k := meta], files, now) == files - {meta.record.bodyPath};
    } else {
      CacheService.UnexpiredEntrySeen(listed, seen, k, meta, files, now);
      assert WithoutExpiredBodies(seen[k := meta], files, now) == files;
    }
  }

  lemma ExpiredBodyIsGone(config: Config, c: Scene, k: string, next: Proc, e: State, r: TaskResult)
    requires k in c.s.cache && Expired(c.s.cache[k], c.clock.now)
    requires StoresThen(config, WithFiles(c, c.s.files - {c.s.cache[k].record.bodyPath}), next, e, r)
    ensures StoresThen(config, c, next, e, r)
  {
    hide EndsAs, ListsUnexpired, Expired;
    var path := c.s.cache[k].record.bodyPath;
    var c' := WithFiles(c, c.s.files - {path});
    var entries :| ListsUnexpired(entries, c.s.cache, c.clock.now)
      && EndsAs(config, StoredWith(c', entries), next, e, r);
    assert HoldsExpiredBody(c.s.cache, path, c.clock.now);
    assert WithoutExpiredBodies(c.s.cache, c'.s.files, c.clock.now) ==
      WithoutExpiredBodies(c.s.cache, c.s.files, c.clock.now);
    assert StoredWith(c', entries) == StoredWith(c, entries);
  }

  lemma StoreScanEnds(config: Config, w: World, t: nat, p: Proc, w': World, p': Proc, e: State, r: TaskResult)
    requires p.StoreScan? && StoreStep(w, t, p, w', p') && EndsAs(config, SceneOf(w'), p', e, r)
    ensures EndsAs(config, SceneOf(w), p, e, r)
  {
    hide EndsAs, StoresThen, ScannedSoFar, Expired, DeleteIfThere;
    var c := SceneOf(w);
    StoreScanMeans(config, c, p.now, p.todo, p.listed, p.next, e, r);
    if p.now == c.clock.now && ScannedSoFar(c, p.todo, p.listed) {
      if p.todo == {} {
        WriteMetaMeans(config, c, p.listed, p.next, e, r);
        ScanIsOver(config, c, p.listed, p.next, e, r);
      } else {
        var k :| k in p.todo && k in w.cache && p' == Scanned(p, k, w.cache[k]);
        ScannedEnds(config, c, p, k, e, r);
      }
    }
  }

  lemma ScannedEnds(config: Config, c: Scene, p: Proc, k: string, e: State, r: TaskResult)
    requires p.StoreScan? && k in p.todo && k in c.s.cache
    requires p.now == c.clock.now && ScannedSoFar(c, p.todo, p.listed)
    requires EndsAs(config, c, Scanned(p, k, c.s.cache[k]), e, r)
    ensures StoresThen(config, c, p.next, e, r)
  {
    hide EndsAs, StoresThen, ScannedSoFar, Expired, DeleteIfThere;
    var meta := c.s.cache[k];
    ScannedOneMore(c, p.todo, p.listed, k);
    if Expired(meta, p.now) {
      var gone := WithFiles(c, c.s.files - {meta.record.bodyPath});
      DeleteIfThereEnds(
        config, c, meta.record.bodyPath, StoreScan(p.now, p.todo - {k}, p.listed, p.next), e, r);
      StoreScanMeans(config, gone, p.now, p.todo - {k}, p.listed, p.next, e, r);
      ExpiredBodyIsGone(config, c, k, p.next, e, r);
    } else {
      StoreScanMeans(config, c, p.now, p.todo - {k}, p.listed + [Entry(k, meta)], p.next, e, r);
    }
  }

  lemma StoreEnds(config: Config, w: World, t: nat, p: Proc, w': World, p': Proc, e: State, r: TaskResult)
    requires (p.StoreLock? || p.WriteMeta? || p.RenameMeta?) && StoreStep(w, t, p, w', p')
    requires Succeeds(w, p, w', p') && EndsAs(config, SceneOf(w'), p', e, r)
    ensures EndsAs(config, SceneOf(w), p, e, r)
  {
    hide StoresThen, ScannedSoFar;
    var c := SceneOf(w);
    if p.StoreLock? {
      ScanBegins(c);
      StoreScanMeans(config, c, w.clock.now, w.cache.Keys, [], p.next, e, r);
    } else if p.WriteMeta? {
      WriteMetaMeans(config, c, p.entries, p.next, e, r);
    }
  }

  // ---------- clean_stale_metadata, clean_stale_metadata_with_key ----------

  lemma CleanMeans(
    config: Config, c: Scene, shard: Option<nat>, valid: set<FilePath>, next: Proc, e: State, r: TaskResult)
    ensures EndsAs(config, c, CleanPaths(shard, next), e, r) <==>
      EndsAs(config, Cleaned(config, c, shard, Paths(c.s.cache)), next, e, r)
    ensures EndsAs(config, c, CleanRead(shard, valid, next), e, r) <==>
      EndsAs(config, Cleaned(config, c, shard, valid), next, e, r)
  {
    hide Cleaned;
  }

  lemma CleanLoopMeans(
    config: Config, c: Scene, shard: Option<nat>, valid: set<FilePath>, now: int, left: seq<Entry>, kept: seq<Entry>,
    next: Proc, e: State, r: TaskResult)
    ensures EndsAs(config, c, CleanLoop(shard, valid, now, left, kept, next), e, r) <==>
      (now == c.clock.now ==> EndsAs(config, CleanedFrom(config, c, shard, valid, left, kept), next, e, r))
  {
    hide CleanedFrom;
  }

  lemma ScanDirMeans(
    config: Config, c: Scene, dir: string, valid: set<FilePath>, sweepTemps: bool, next: Proc, e: State, r: TaskResult)
    ensures EndsAs(config, c, ScanDir(dir, valid, sweepTemps, next), e, r) <==>
      EndsAs(config, WithFiles(c, WithoutSwept(c.s.files, InDir(c.s.files, dir), valid, sweepTemps)), next, e, r)
  {
    hide WithoutSwept, InDir;
  }

  lemma ScanFilesMeans(
    config: Config, c: Scene, files: set<FilePath>, valid: set<FilePath>, sweepTemps: bool, next: Proc, e: State,
    r: TaskResult)
    ensures EndsAs(config, c, ScanFiles(files, valid, sweepTemps, next), e, r) <==>
      EndsAs(config, WithFiles(c, WithoutSwept(c.s.files, files, valid, sweepTemps)), next, e, r)
  {
    hide WithoutSwept, InDir;
  }

  lemma CleanEnds(config: Config, w: World, p: Proc, w': World, p': Proc, e: State, r: TaskResult)
    requires (p.CleanStart? || p.CleanPaths? || p.CleanRead?) && CleanStep(config, w, p, w', p')
    requires Succeeds(w, p, w', p') && EndsAs(config, SceneOf(w'), p', e, r)
    ensures EndsAs(config, SceneOf(w), p, e, r)
  {
    hide EndsAs, CleanedFrom, Paths, ReadEntries;
    var c := SceneOf(w);
    CleanMeans(config, c, p.shard, Paths(w.cache), p.next, e, r);
    if p.CleanStart? {
      CleanStartEnds(config, c, p.shard, p.next, e, r);
    } else if p.CleanRead? {
      CleanMeans(config, c, p.shard, p.valid, p.next, e, r);
      if w.snapshot.Some? && Readable(w.snapshot.value, w.clock) {
        var entries := ReadEntries(w.snapshot.value, w.clock);
        CleanLoopMeans(config, c, p.shard, p.valid, w.clock.now, entries, [], p.next, e, r);
      }
    }
  }

  /** When the list is empty, what is left is the scan, for one shard, and the rewrite. */
  lemma CleanLoopIsOver(config: Config, c: Scene, p: Proc, e: State, r: TaskResult)
    requires p.CleanLoop? && p.left == []
    requires var rest := WriteMeta(p.kept, p.next);
      EndsAs(config, c, if p.shard.Some? then ScanDir(ShardDir(p.shard.value), p.valid, false, rest) else rest, e, r)
    ensures EndsAs(config, CleanedFrom(config, c, p.shard, p.valid, [], p.kept), p.next, e, r)
  {
    hide EndsAs, ShardDir;
    var rest := WriteMeta(p.kept, p.next);
    assert p.kept + [] == p.kept;
    if p.shard.Some? {
      var dir := ShardDir(p.shard.value);
      ScanDirMeans(config, c, dir, p.valid, false, rest, e, r);
      var files := WithoutSwept(c.s.files, InDir(c.s.files, dir), p.valid, false);
      WriteMetaMeans(config, WithFiles(c, files), p.kept, p.next, e, r);
      assert files == WithoutOrphansIn(dir, p.valid, c.s.files);
    } else {
      WriteMetaMeans(config, c, p.kept, p.next, e, r);
    }
  }

  /** What cleaning does with the first entry. */
  lemma CleanedFromFirst(
    config: Config, c: Scene, shard: Option<nat>, valid: set<FilePath>, left: seq<Entry>, kept: seq<Entry>)
    requires left != []
    ensures var entry := left[0];
      var path := entry.meta.record.bodyPath;
      var keep := CleanedFrom(config, c, shard, valid, left[1..], kept + [entry]);
      var drop := CleanedFrom(config, c, shard, valid, left[1..], kept);
      var gone := CleanedFrom(config, WithFiles(c, c.s.files - {path}), shard, valid, left[1..], kept);
      CleanedFrom(config, c, shard, valid, left, kept) ==
        if shard.Some? && ShardId(config, entry.key) != shard.value then keep
        else if Expired(entry.meta, c.clock.now) then (if path in valid then drop else gone)
        else if path in c.s.files then keep else drop
  {
    hide Expired, ShardId, ShardDir, WithoutOrphansIn, WriteEntries;
    CleanFirst(config, shard, valid, left, c.s.files, c.clock.now);
    assert left[..1][..0] == [] && CleanEntries(config, shard, valid, [], c.s.files, c.clock.now) == ([], c.s.files);
    var (first, files) := CleanEntries(config, shard, valid, left[..1], c.s.files, c.clock.now);
    var more := CleanEntries(config, shard, valid, left[1..], files, c.clock.now).0;
    assert kept + (first + more) == (kept + first) + more;
    assert kept + [] == kept && [] + [left[0]] == [left[0]];
  }

  lemma CleanLoopEnds(config: Config, w: World, p: Proc, w': World, p': Proc, e: State, r: TaskResult)
    requires p.CleanLoop? && CleanStep(config, w, p, w', p') && EndsAs(config, SceneOf(w'), p', e, r)
    ensures EndsAs(config, SceneOf(w), p, e, r)
  {
    hide EndsAs, CleanedFrom, Expired, ShardId, ShardDir, DeleteIfThere;
    var c := SceneOf(w);
    CleanLoopMeans(config, c, p.shard, p.valid, p.now, p.left, p.kept, p.next, e, r);
    if p.left == [] {
      CleanLoopIsOver(config, c, p, e, r);
    } else if p.now == c.clock.now {
      FirstEntryEnds(config, c, p, p', e, r);
    }
  }

  lemma FirstEntryEnds(config: Config, c: Scene, p: Proc, p': Proc, e: State, r: TaskResult)
    requires p.CleanLoop? && p.left != [] && p.now == c.clock.now && EndsAs(config, c, p', e, r)
    requires var entry := p.left[0];
      var path := entry.meta.record.bodyPath;
      var keep := CleanLoop(p.shard, p.valid, p.now, p.left[1..], p.kept + [entry], p.next);
      var drop := CleanLoop(p.shard, p.valid, p.now, p.left[1..], p.kept, p.next);
      p' == if p.shard.Some? && ShardId(config, entry.key) != p.shard.value then keep
            else if Expired(entry.meta, p.now) then (if path in p.valid then drop else DeleteIfThere(path, drop))
            else IfExists(path, keep, drop)
    ensures EndsAs(config, CleanedFrom(config, c, p.shard, p.valid, p.left, p.kept), p.next, e, r)
  {
    hide EndsAs, CleanedFrom, Expired, ShardId, DeleteIfThere;
    var entry, rest, path := p.left[0], p.left[1..], p.left[0].meta.record.bodyPath;
    var keep := CleanLoop(p.shard, p.valid, p.now, rest, p.kept + [entry], p.next);
    var drop := CleanLoop(p.shard, p.valid, p.now, rest, p.kept, p.next);
    var gone := WithFiles(c, c.s.files - {path});
    CleanedFromFirst(config, c, p.shard, p.valid, p.left, p.kept);
    CleanLoopMeans(config, c, p.shard, p.valid, p.now, rest, p.kept + [entry], p.next, e, r);
    CleanLoopMeans(config, c, p.shard, p.valid, p.now, rest, p.kept, p.next, e, r);
    CleanLoopMeans(config, gone, p.shard, p.valid, p.now, rest, p.kept, p.next, e, r);
    DeleteIfThereEnds(config, c, path, drop, e, r);
    IfExistsEnds(config, c, path, keep, drop, e, r);
  }

  // ---------- The scans ----------

  lemma OneFileLess(files: Files, among: set<FilePath>, valid: set<FilePath>, sweepTemps: bool, f: FilePath)
    requires f in among
    ensures WithoutSwept(files, among, valid, sweepTemps) ==
      WithoutSwept(if Sweeps(f, valid, sweepTemps) then files - {f} else files, among - {f}, valid, sweepTemps)
  {
  }

  lemma ScanEnds(config: Config, w: World, p: Proc, w': World, p': Proc, e: State, r: TaskResult)
    requires (p.ScanDir? || p.ScanFiles?) && SweepStep(w, p, w', p')
    requires Succeeds(w, p, w', p') && EndsAs(config, SceneOf(w'), p', e, r)
    ensures EndsAs(config, SceneOf(w), p, e, r)
  {
    hide EndsAs, WithoutSwept;
    var c := SceneOf(w);
    if p.ScanDir? {
      ScanDirMeans(config, c, p.dir, p.valid, p.sweepTemps, p.next, e, r);
      ScanFilesMeans(config, c, InDir(w.files, p.dir), p.valid, p.sweepTemps, p.next, e, r);
    } else {
      ScanFilesMeans(config, c, p.files, p.valid, p.sweepTemps, p.next, e, r);
      if p.files == {} {
        NothingSwept(w.files, p.valid, p.sweepTemps);
      } else {
        var f :| f in p.files && var rest := ScanFiles(p.files - {f}, p.valid, p.sweepTemps, p.next);
          p' == if (f.ext == BIN && f !in p.valid) || (p.sweepTemps && f.ext == TMP) then Delete(f, rest) else rest;
        OneFileScanned(config, c, p, f, p', e, r);
      }
    }
  }

  lemma NothingSwept(files: Files, valid: set<FilePath>, sweepTemps: bool)
    ensures WithoutSwept(files, {}, valid, sweepTemps) == files
  {
  }

  lemma DeleteEnds(config: Config, c: Scene, path: FilePath, next: Proc, e: State, r: TaskResult)
    ensures EndsAs(config, c, Delete(path, next), e, r) <==>
      EndsAs(config, WithFiles(c, c.s.files - {path}), next, e, r)
  {
  }

  lemma OneFileScanned(config: Config, c: Scene, p: Proc, f: FilePath, p': Proc, e: State, r: TaskResult)
    requires p.ScanFiles? && f in p.files && EndsAs(config, c, p', e, r)
    requires var rest := ScanFiles(p.files - {f}, p.valid, p.sweepTemps, p.next);
      p' == if Sweeps(f, p.valid, p.sweepTemps) then Delete(f, rest) else rest
    ensures EndsAs(
      config, WithFiles(c, WithoutSwept(c.s.files, p.files, p.valid, p.sweepTemps)), p.next, e, r)
  {
    hide EndsAs, WithoutSwept, Sweeps;
    var rest, gone := ScanFiles(p.files - {f}, p.valid, p.sweepTemps, p.next), WithFiles(c, c.s.files - {f});
    OneFileLess(c.s.files, p.files, p.valid, p.sweepTemps, f);
    DeleteEnds(config, c, f, rest, e, r);
    ScanFilesMeans(config, c, p.files - {f}, p.valid, p.sweepTemps, p.next, e, r);
    ScanFilesMeans(config, gone, p.files - {f}, p.valid, p.sweepTemps, p.next, e, r);
  }

  lemma OrphanMeans(config: Config, c: Scene, valid: set<FilePath>, dirs: set<string>, e: State, r: TaskResult)
    ensures EndsAs(config, c, OrphanDirs(valid, dirs), e, r) <==>
      r == Swept && e == c.s.(files := WithoutSweptDirs(c.s.files, dirs, valid))
    ensures EndsAs(config, c, OrphanStart, e, r) <==> r == Swept && e == OrphanPass(c.s)
  {
  }

  lemma OrphanEnds(config: Config, w: World, p: Proc, w': World, p': Proc, e: State, r: TaskResult)
    requires (p.OrphanStart? || p.OrphanDirs?) && SweepStep(w, p, w', p') && EndsAs(config, SceneOf(w'), p', e, r)
    ensures EndsAs(config, SceneOf(w), p, e, r)
  {
    hide EndsAs, WithoutSweptDirs, OrphanPass, Paths, IsShardDir;
    var c := SceneOf(w);
    if p.OrphanStart? {
      var dirs := set f | f in w.files && IsShardDir(f.dir) :: f.dir;
      OrphanMeans(config, c, Paths(w.cache), dirs, e, r);
      ShardDirsAreSwept(c.s, dirs);
    } else {
      OrphanMeans(config, c, p.valid, p.dirs, e, r);
      if p.dirs == {} {
        NoDirSwept(w.files, p.valid);
        FinishedEnds(config, c, Swept, e, r);
      } else {
        var dir :| dir in p.dirs && p' == ScanDir(dir, p.valid, true, OrphanDirs(p.valid, p.dirs - {dir}));
        ScanDirMeans(config, c, dir, p.valid, true, OrphanDirs(p.valid, p.dirs - {dir}), e, r);
        var swept := WithFiles(c, WithoutSwept(w.files, InDir(w.files, dir), p.valid, true));
        OrphanMeans(config, swept, p.valid, p.dirs - {dir}, e, r);
        OneDirLess(w.files, p.dirs, p.valid, dir);
      }
    }
  }

  lemma FinishedEnds(config: Config, c: Scene, done: TaskResult, e: State, r: TaskResult)
    ensures EndsAs(config, c, Finished(done), e, r) <==> e == c.s && r == done
  {
  }

  lemma ShardDirsAreSwept(s: State, dirs: set<string>)
    requires dirs == set f | f in s.files && IsShardDir(f.dir) :: f.dir
    ensures s.(files := WithoutSweptDirs(s.files, dirs, Paths(s.cache))) == OrphanPass(s)
  {
    hide IsShardDir, Paths;
  }

  lemma NoDirSwept(files: Files, valid: set<FilePath>)
    ensures WithoutSweptDirs(files, {}, valid) == files
  {
  }

  lemma OneDirLess(files: Files, dirs: set<string>, valid: set<FilePath>, dir: string)
    requires dir in dirs
    ensures WithoutSweptDirs(files, dirs, valid) ==
      WithoutSweptDirs(WithoutSwept(files, InDir(files, dir), valid, true), dirs - {dir}, valid)
  {
  }

  // ---------- load ----------

  lemma LoadMeans(config: Config, c: Scene, now: int, left: seq<Entry>, e: State, r: TaskResult)
    ensures EndsAs(config, c, LoadStart, e, r) <==> r == Loaded && e == LoadPass(c.s, c.clock)
    ensures EndsAs(config, c, LoadLock(left), e, r) <==> r == Loaded && LoadEndsAs(c, left, e)
    ensures EndsAs(config, c, LoadLoop(now, left), e, r) <==>
      r == Loaded && (now == c.clock.now ==> LoadEndsAs(c, left, e))
    ensures EndsAs(config, c, Finished(Loaded), e, r) <==> e == c.s && r == Loaded
  {
    hide LoadEndsAs, LoadPass;
  }

  lemma LoadInsertMeans(
    config: Config, c: Scene, entry: Entry, now: int, left: seq<Entry>, e: State, r: TaskResult)
    ensures EndsAs(config, c, LoadInsert(entry, now, left), e, r) <==>
      && r == Loaded
      && (now == c.clock.now ==>
            LoadEndsAs(c.(s := c.s.(cache := c.s.cache[entry.key := entry.meta])), left, e))
  {
    hide LoadEndsAs;
  }

  lemma LoadsFirst(c: Scene, left: seq<Entry>, e: State)
    requires left != []
    ensures var entry := left[0];
      var path := entry.meta.record.bodyPath;
      LoadEndsAs(c, left, e) <==>
        LoadEndsAs(
          if Expired(entry.meta, c.clock.now) then WithFiles(c, c.s.files - {path})
          else if path in c.s.files then c.(s := c.s.(cache := c.s.cache[entry.key := entry.meta]))
          else c,
          left[1..], e)
  {
    hide Expired;
    LoadFirst(left, c.s.cache, c.s.files, c.clock.now);
    assert left[..1][..0] == [] && LoadEntries([], c.s.cache, c.s.files, c.clock.now) == (c.s.cache, c.s.files);
  }

  lemma LoadEnds(config: Config, w: World, t: nat, p: Proc, w': World, p': Proc, e: State, r: TaskResult)
    requires (p.LoadStart? || p.LoadLock? || p.LoadInsert?) && LoadStep(w, t, p, w', p')
    requires Succeeds(w, p, w', p') && EndsAs(config, SceneOf(w'), p', e, r)
    ensures EndsAs(config, SceneOf(w), p, e, r)
  {
    hide EndsAs, ReadEntries;
    var c, c' := SceneOf(w), SceneOf(w');
    LoadMeans(config, c, w.clock.now, [], e, r);
    if p.LoadStart? {
      if w.snapshot.Some? && Readable(w.snapshot.value, w.clock) {
        LoadMeans(config, c, w.clock.now, ReadEntries(w.snapshot.value, w.clock), e, r);
      }
    } else if p.LoadLock? {
      LoadMeans(config, c, w.clock.now, p.left, e, r);
    } else {
      LoadMeans(config, c', p.now, p.left, e, r);
      LoadInsertMeans(config, c, p.entry, p.now, p.left, e, r);
    }
  }

  lemma LoadLoopEnds(config: Config, w: World, t: nat, p: Proc, w': World, p': Proc, e: State, r: TaskResult)
    requires p.LoadLoop? && LoadStep(w, t, p, w', p') && EndsAs(config, SceneOf(w'), p', e, r)
    ensures EndsAs(config, SceneOf(w), p, e, r)
  {
    hide EndsAs, Expired, DeleteIfThere, LoadEndsAs;
    var c := SceneOf(w);
    LoadMeans(config, c, p.now, p.left, e, r);
    if p.left != [] {
      FirstLoadEnds(config, c, p.now, p.left, p', e, r);
    } else {
      NothingLoads(c);
    }
  }

  lemma NothingLoads(c: Scene)
    ensures LoadEndsAs(c, [], c.s)
  {
  }

  lemma FirstLoadEnds(config: Config, c: Scene, now: int, left: seq<Entry>, p': Proc, e: State, r: TaskResult)
    requires left != [] && EndsAs(config, c, p', e, r)
    requires var entry, rest := left[0], LoadLoop(now, left[1..]);
      var path := entry.meta.record.bodyPath;
      p' == if Expired(entry.meta, now) then DeleteIfThere(path, rest)
            else IfExists(path, LoadInsert(entry, now, left[1..]), rest)
    ensures r == Loaded && (now == c.clock.now ==> LoadEndsAs(c, left, e))
  {
    hide EndsAs, Expired, DeleteIfThere, LoadEndsAs;
    var entry, rest, path := left[0], LoadLoop(now, left[1..]), left[0].meta.record.bodyPath;
    LoadsFirst(c, left, e);
    if Expired(entry.meta, now) {
      DeleteIfThereEnds(config, c, path, rest, e, r);
      LoadMeans(config, WithFiles(c, c.s.files - {path}), now, left[1..], e, r);
    } else {
      IfExistsEnds(config, c, path, LoadInsert(entry, now, left[1..]), rest, e, r);
      LoadMeans(config, c, now, left[1..], e, r);
      LoadInsertMeans(config, c, entry, now, left[1..], e, r);
    }
  }

  // ---------- The theorems ----------

  lemma RemovalEnds(config: Config, w: World, t: nat, p: Proc, w': World, p': Proc, e: State, r: TaskResult)
    requires (p.IfExists? || p.Delete? || p.RemoveKey?) && Exec(config, w, t, p, w', p')
    requires Succeeds(w, p, w', p') && EndsAs(config, SceneOf(w'), p', e, r)
    ensures EndsAs(config, SceneOf(w), p, e, r)
  {
    hide EndsAs;
    var c := SceneOf(w);
    if p.IfExists? {
      IfExistsEnds(config, c, p.path, p.yes, p.no, e, r);
    } else if p.Delete? {
      DeleteEnds(config, c, p.path, p.next, e, r);
      if p.path !in w.files {
        assert w.files - {p.path} == w.files;
      }
    } else {
      RemoveKeyEnds(config, c, p.key, p.next, e, r);
    }
  }

  /** One step, and what is left of the task, is all of it. */
  lemma StepEnds(config: Config, w: World, t: nat, p: Proc, w': World, p': Proc, e: State, r: TaskResult)
    requires Exec(config, w, t, p, w', p') && Succeeds(w, p, w', p') && EndsAs(config, SceneOf(w'), p', e, r)
    ensures EndsAs(config, SceneOf(w), p, e, r)
  {
    hide EndsAs, Succeeds, LookUpStep, ReadBodyStep, PutStep, StoreStep, CleanStep, SweepStep, LoadStep, ReadEndsAs;
    if p.IfExists? || p.Delete? || p.RemoveKey? { RemovalEnds(config, w, t, p, w', p', e, r); }
    else if p.LookUp? { LookUpEnds(config, w, p, w', p', e, r); }
    else if p.ReadBody? {
      ReadBodyEnds(config, w, p, w', p', e, r);
      ReadBodyMeans(config, SceneOf(w), p.key, p.meta, p.withBucket, e, r);
    }
    else if p.WriteTemp? { WriteEnds(config, w, p, w', p', e, r); }
    else if p.RenameTemp? { RenameEnds(config, w, p, w', p', e, r); }
    else if p.Insert? { InsertEnds(config, w, p, w', p', e, r); }
    else if p.StoreScan? { StoreScanEnds(config, w, t, p, w', p', e, r); }
    else if p.StoreLock? || p.WriteMeta? || p.RenameMeta? { StoreEnds(config, w, t, p, w', p', e, r); }
    else if p.CleanLoop? { CleanLoopEnds(config, w, p, w', p', e, r); }
    else if p.CleanStart? || p.CleanPaths? || p.CleanRead? { CleanEnds(config, w, p, w', p', e, r); }
    else if p.ScanDir? || p.ScanFiles? { ScanEnds(config, w, p, w', p', e, r); }
    else if p.OrphanStart? || p.OrphanDirs? { OrphanEnds(config, w, p, w', p', e, r); }
    else if p.LoadLoop? { LoadLoopEnds(config, w, t, p, w', p', e, r); }
    else { LoadEnds(config, w, t, p, w', p', e, r); }
  }

  lemma {:induction false} RunEnds(config: Config, run: seq<World>, t: nat, p: Proc, r: TaskResult)
    requires RunsAlone(config, run, t, p, r)
    ensures EndsAs(config, SceneOf(run[0]), p, StateOf(run[|run| - 1]), r)
    decreases |run|
  {
    hide EndsAs, Exec, Succeeds;
    var e := StateOf(run[|run| - 1]);
    if |run| == 1 {
      FinishedEnds(config, SceneOf(run[0]), r, e, r);
    } else {
      assert AloneStepAt(config, run, t, 0);
      var x, p' :| Exec(config, run[0], t, p, x, p') && Succeeds(run[0], p, x, p')
        && run[1] == x.(tasks := run[0].tasks[t := p']);
      forall i | 0 <= i < |run[1..]| - 1 ensures AloneStepAt(config, run[1..], t, i) {
        assert AloneStepAt(config, run, t, i + 1);
      }
      RunEnds(config, run[1..], t, p', r);
      assert SceneOf(run[1]) == SceneOf(x);
      StepEnds(config, run[0], t, p, x, p', e, r);
    }
  }

  lemma LookUpAloneIsGet(
    config: Config, run: seq<World>, t: nat, key: string, withBucket: bool, result: TaskResult)
    requires RunsAlone(config, run, t, LookUp(key, withBucket), result)
    ensures result.Found? && result.key == key
    ensures GetPass(config, StateOf(run[0]), key, withBucket, run[0].clock, StateOf(run[|run| - 1]), result.result)
  {
    hide GetPass, RunsAlone;
    RunEnds(config, run, t, LookUp(key, withBucket), result);
  }

  lemma PutAloneIsPut(config: Config, run: seq<World>, t: nat, job: PutRecord, result: TaskResult)
    requires RunsAlone(config, run, t, WriteTemp(job), result) && IsPut(config, job)
    ensures result == PutEnded(Stored)
    ensures PutPass(config, StateOf(run[0]), job.key, job.response, job.body, job.withBucket, run[0].clock,
      StateOf(run[|run| - 1]), Stored)
  {
    hide PutWithVictim, RunsAlone, PutDecision;
    RunEnds(config, run, t, WriteTemp(job), result);
  }

  lemma StoreAloneIsStore(config: Config, run: seq<World>, t: nat, done: TaskResult, result: TaskResult)
    requires RunsAlone(config, run, t, StoreLock(Finished(done)), result)
    ensures result == done && StorePass(StateOf(run[0]), run[0].clock, StateOf(run[|run| - 1]))
  {
    hide ListsUnexpired, EndsAs;
    var c, e := SceneOf(run[0]), StateOf(run[|run| - 1]);
    RunEnds(config, run, t, StoreLock(Finished(done)), result);
    StoreLockEnds(config, c, Finished(done), e, result);
    var entries :| ListsUnexpired(entries, c.s.cache, c.clock.now)
      && EndsAs(config, StoredWith(c, entries), Finished(done), e, result);
    FinishedEnds(config, StoredWith(c, entries), done, e, result);
  }

  /** For every shard, and for one. */
  lemma CleaningAloneIsClean(
    config: Config, run: seq<World>, t: nat, shard: Option<nat>, done: TaskResult, result: TaskResult)
    requires RunsAlone(config, run, t, CleanStart(shard, Finished(done)), result)
    ensures result == done
    ensures StateOf(run[|run| - 1]) == CleanPass(config, StateOf(run[0]), shard, run[0].clock)
  {
    hide Cleaned, CleanPass, EndsAs;
    var c, e := SceneOf(run[0]), StateOf(run[|run| - 1]);
    RunEnds(config, run, t, CleanStart(shard, Finished(done)), result);
    CleanStartEnds(config, c, shard, Finished(done), e, result);
    FinishedEnds(config, Cleaned(config, c, shard, Paths(c.s.cache)), done, e, result);
    CleanedIsCleanPass(config, c, shard);
  }

  lemma OrphansAloneIsOrphan(config: Config, run: seq<World>, t: nat, result: TaskResult)
    requires RunsAlone(config, run, t, OrphanStart, result)
    ensures result == Swept && StateOf(run[|run| - 1]) == OrphanPass(StateOf(run[0]))
  {
    hide RunsAlone, OrphanPass;
    RunEnds(config, run, t, OrphanStart, result);
  }

  lemma LoadAloneIsLoad(config: Config, run: seq<World>, t: nat, result: TaskResult)
    requires RunsAlone(config, run, t, LoadStart, result)
    ensures result == Loaded && StateOf(run[|run| - 1]) == LoadPass(StateOf(run[0]), run[0].clock)
  {
    hide RunsAlone, LoadPass;
    RunEnds(config, run, t, LoadStart, result);
  }

  /** One round of the background service is a store and a cleaning of every shard. */
  lemma PeriodicPassAlone(config: Config, run: seq<World>, t: nat, result: TaskResult)
    requires RunsAlone(config, run, t, PeriodicPass(), result)
    ensures result == Swept && exists mid ::
      StorePass(StateOf(run[0]), run[0].clock, mid)
      && StateOf(run[|run| - 1]) == CleanPass(config, mid, None, run[0].clock)
  {
    hide Cleaned, CleanPass, ListsUnexpired, EndsAs;
    var c, e := SceneOf(run[0]), StateOf(run[|run| - 1]);
    RunEnds(config, run, t, PeriodicPass(), result);
    StoreLockEnds(config, c, CleanStart(None, Finished(Swept)), e, result);
    var entries :| ListsUnexpired(entries, c.s.cache, c.clock.now)
      && EndsAs(config, StoredWith(c, entries), CleanStart(None, Finished(Swept)), e, result);
    var stored := StoredWith(c, entries);
    assert StorePass(c.s, c.clock, stored.s);
    CleanStartEnds(config, stored, None, Finished(Swept), e, result);
    FinishedEnds(config, Cleaned(config, stored, None, Paths(stored.s.cache)), Swept, e, result);
    CleanedIsCleanPass(config, stored, None);
  }
}
