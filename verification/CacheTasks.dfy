/** The cache as many tasks. One step of a task is one locked region, or one file operation inside or outside a
    lock; between any two steps of a task any other task may run, any file operation may fail, the clock may
    advance, a task may be cancelled, and the process may crash and start again. A task is what it still has to do
    (`Proc`). */
module CacheTasks {
  import opened Wrappers
  import opened CacheTypes
  import opened CacheSpec

  /** One accepted put: what was to be stored, and the encoded body. */
  datatype PutRecord = PutRecord(key: string, response: Response, body: Bytes, raw: Bytes, withBucket: bool)

  datatype TaskResult = Found(key: string, result: Lookup) | PutEnded(outcome: PutOutcome) | Swept | Loaded | Cancelled

  datatype Proc =
    | Finished(result: TaskResult)
    // file operations that several tasks use
    | IfExists(path: FilePath, yes: Proc, no: Proc)
    | Delete(path: FilePath, next: Proc)
    // get_cache
    | LookUp(key: string, withBucket: bool)
    | RemoveKey(key: string, next: Proc)
    | ReadBody(key: string, meta: Metadata, withBucket: bool)
    // put_cache
    | WriteTemp(job: PutRecord)
    | RenameTemp(job: PutRecord)
    | Insert(job: PutRecord, createdAt: int)
    // store
    | StoreLock(next: Proc)
    | StoreScan(now: int, todo: set<string>, listed: seq<Entry>, next: Proc)
    | WriteMeta(entries: seq<Entry>, next: Proc)
    | RenameMeta(next: Proc)
    // clean_stale_metadata, clean_stale_metadata_with_key
    | CleanStart(shard: Option<nat>, next: Proc)
    | CleanPaths(shard: Option<nat>, next: Proc)
    | CleanRead(shard: Option<nat>, valid: set<FilePath>, next: Proc)
    | CleanLoop(shard: Option<nat>, valid: set<FilePath>, now: int, left: seq<Entry>, kept: seq<Entry>, next: Proc)
    | ScanDir(dir: string, valid: set<FilePath>, sweepTemps: bool, next: Proc)
    | ScanFiles(files: set<FilePath>, valid: set<FilePath>, sweepTemps: bool, next: Proc)
    // orphaned_files_cleanup
    | OrphanStart
    | OrphanDirs(valid: set<FilePath>, dirs: set<string>)
    // load
    | LoadStart
    | LoadLock(left: seq<Entry>)
    | LoadLoop(now: int, left: seq<Entry>)
    | LoadInsert(entry: Entry, now: int, left: seq<Entry>)

  type Meta = Option<seq<StoredEntry>>

  /** `serving` is false from a start of the process until its `load` has returned; `puts` records every put
      that was accepted so far and is not part of the real state. */
  datatype World = World(
    cache: Cache,
    files: Files,
    snapshot: Meta,
    metaTemp: Meta,
    lock: Option<nat>,
    tasks: map<nat, Proc>,
    serving: bool,
    clock: Clock,
    puts: set<PutRecord>)

  // ---------- Programs ----------

  /** `handle_persistence_after_removal` */
  function Persist(config: Config, key: string, withBucket: bool, next: Proc): Proc {
    if config.persistent && withBucket then StoreLock(CleanStart(Some(ShardId(config, key)), next)) else next
  }

  function MissAfter(config: Config, key: string, withBucket: bool): Proc {
    Persist(config, key, withBucket, Finished(Found(key, Miss)))
  }

  /** The end of `put_cache`. */
  function StoreAfterPut(config: Config, job: PutRecord): Proc {
    var done := Finished(PutEnded(Stored));
    if config.persistent && job.withBucket then StoreLock(done) else done
  }

  /** One round of `start_service`. */
  function PeriodicPass(): Proc {
    StoreLock(CleanStart(None, Finished(Swept)))
  }

  function RecordOf(config: Config, job: PutRecord): Record {
    NewMetadata(config, job.key, job.response, job.raw, 0).record
  }

  function DeleteIfThere(path: FilePath, next: Proc): Proc {
    IfExists(path, Delete(path, next), next)
  }

  /** What is left of a `store` scan after one more entry. */
  function Scanned(p: Proc, key: string, meta: Metadata): Proc
    requires p.StoreScan?
  {
    if Expired(meta, p.now)
    then DeleteIfThere(meta.record.bodyPath, StoreScan(p.now, p.todo - {key}, p.listed, p.next))
    else StoreScan(p.now, p.todo - {key}, p.listed + [Entry(key, meta)], p.next)
  }

  /** What `get_cache` still has to do once it has looked at the map. */
  function AfterUnknown(config: Config, key: string, withBucket: bool): Proc {
    var path := BodyPath(config, key);
    IfExists(path, Delete(path, MissAfter(config, key, withBucket)), Finished(Found(key, Miss)))
  }

  function AfterFound(config: Config, key: string, meta: Metadata, withBucket: bool, now: int): Proc {
    var path, miss := meta.record.bodyPath, MissAfter(config, key, withBucket);
    if Expired(meta, now) then RemoveKey(key, DeleteIfThere(path, miss))
    else IfExists(path, ReadBody(key, meta, withBucket), RemoveKey(key, miss))
  }

  // ---------- One step of a task ----------

  ghost predicate LookUpStep(config: Config, w: World, p: Proc, w': World, p': Proc)
    requires p.LookUp?
  {
    && w.lock.None? && w' == w
    && p' == if p.key in w.cache
             then AfterFound(config, p.key, w.cache[p.key], p.withBucket, w.clock.now)
             else AfterUnknown(config, p.key, p.withBucket)
  }

  ghost predicate ReadBodyStep(config: Config, w: World, p: Proc, w': World, p': Proc)
    requires p.ReadBody?
  {
    var path, record := p.meta.record.bodyPath, p.meta.record;
    && w' == w
    && (|| p' == RemoveKey(p.key, MissAfter(config, p.key, p.withBucket))
        || (path in w.files && match Decode(config.codec, w.files[path])
              case Some(body) =>
                p' == Finished(Found(p.key, Hit(record.headers, record.status, body, record.originalEncoding)))
              case None => p' == RemoveKey(p.key, Delete(path, MissAfter(config, p.key, p.withBucket)))))
  }

  ghost predicate PutStep(config: Config, w: World, p: Proc, w': World, p': Proc)
    requires p.WriteTemp? || p.RenameTemp? || p.Insert?
  {
    var path := BodyPath(config, p.job.key);
    var temp := TempOf(path);
    match p
    case WriteTemp(job) =>
      || (w' == w.(files := w.files[temp := job.raw]) && p' == RenameTemp(job))
      || (w' == w && p' == Finished(PutEnded(Failed)))
    case RenameTemp(job) =>
      || (temp in w.files && w' == w.(files := (w.files - {temp})[path := w.files[temp]])
          && p' == Insert(job, w.clock.now))
      || (w' == w && p' == Delete(temp, Finished(PutEnded(Failed))))
    case Insert(job, createdAt) =>
      var meta := Metadata(RecordOf(config, job), createdAt);
      var after := StoreAfterPut(config, job);
      && w.lock.None?
      && if MustEvict(config, w.cache, job.key) then
           exists victim :: (
             && IsOldest(w.cache, victim)
             && w' == w.(cache := (w.cache - {victim})[job.key := meta])
             && p' == DeleteIfThere(w.cache[victim].record.bodyPath, Persist(config, job.key, job.withBucket, after)))
         else w' == w.(cache := w.cache[job.key := meta]) && p' == after
  }

  ghost predicate StoreStep(w: World, t: nat, p: Proc, w': World, p': Proc)
    requires p.StoreLock? || p.StoreScan? || p.WriteMeta? || p.RenameMeta?
  {
    match p
    case StoreLock(next) =>
      w.lock.None? && w' == w.(lock := Some(t)) && p' == StoreScan(w.clock.now, w.cache.Keys, [], next)
    case StoreScan(now, todo, listed, next) =>
      if todo == {} then w' == w.(lock := None) && p' == WriteMeta(listed, next)
      else w' == w && exists key :: key in todo && key in w.cache && p' == Scanned(p, key, w.cache[key])
    case WriteMeta(entries, next) =>
      || (w' == w.(metaTemp := Some(WriteEntries(entries, w.clock))) && p' == RenameMeta(next))
      || (w' == w && p' == next)
    case RenameMeta(next) =>
      && p' == next
      && (w' == w || (w.metaTemp.Some? && w' == w.(snapshot := w.metaTemp, metaTemp := None)))
  }

  ghost predicate CleanStep(config: Config, w: World, p: Proc, w': World, p': Proc)
    requires p.CleanStart? || p.CleanPaths? || p.CleanRead? || p.CleanLoop?
  {
    && w' == w
    && match p
       case CleanStart(shard, next) => p' == if w.snapshot.Some? then CleanPaths(shard, next) else next
       case CleanPaths(shard, next) => w.lock.None? && p' == CleanRead(shard, Paths(w.cache), next)
       case CleanRead(shard, valid, next) =>
         || p' == next
         || (w.snapshot.Some? && Readable(w.snapshot.value, w.clock)
             && p' == CleanLoop(shard, valid, w.clock.now, ReadEntries(w.snapshot.value, w.clock), [], next))
       case CleanLoop(shard, valid, now, left, kept, next) =>
         if left == [] then
           p' == if shard.Some? then ScanDir(ShardDir(shard.value), valid, false, WriteMeta(kept, next))
                 else WriteMeta(kept, next)
         else
           var e := left[0];
           var path := e.meta.record.bodyPath;
           var keep := CleanLoop(shard, valid, now, left[1..], kept + [e], next);
           var drop := CleanLoop(shard, valid, now, left[1..], kept, next);
           p' == if shard.Some? && ShardId(config, e.key) != shard.value then keep
                 else if Expired(e.meta, now) then (if path in valid then drop else DeleteIfThere(path, drop))
                 else IfExists(path, keep, drop)
  }

  ghost predicate SweepStep(w: World, p: Proc, w': World, p': Proc)
    requires p.ScanDir? || p.ScanFiles? || p.OrphanStart? || p.OrphanDirs?
  {
    && w' == w
    && match p
       case ScanDir(dir, valid, sweepTemps, next) =>
         p' == next || p' == ScanFiles((set f | f in w.files && f.dir == dir), valid, sweepTemps, next)
       case ScanFiles(files, valid, sweepTemps, next) =>
         if files == {} then p' == next
         else exists f :: (
           && f in files
           && var rest := ScanFiles(files - {f}, valid, sweepTemps, next);
              p' == if (f.ext == BIN && f !in valid) || (sweepTemps && f.ext == TMP) then Delete(f, rest) else rest)
       case OrphanStart =>
         w.lock.None? && p' == OrphanDirs(Paths(w.cache), set f | f in w.files && IsShardDir(f.dir) :: f.dir)
       case OrphanDirs(valid, dirs) =>
         if dirs == {} then p' == Finished(Swept)
         else exists dir :: dir in dirs && p' == ScanDir(dir, valid, true, OrphanDirs(valid, dirs - {dir}))
  }

  ghost predicate LoadStep(w: World, t: nat, p: Proc, w': World, p': Proc)
    requires p.LoadStart? || p.LoadLock? || p.LoadLoop? || p.LoadInsert?
  {
    match p
    case LoadStart =>
      && w' == w
      && (|| p' == Finished(Loaded)
          || (w.snapshot.Some? && Readable(w.snapshot.value, w.clock)
              && p' == LoadLock(ReadEntries(w.snapshot.value, w.clock))))
    case LoadLock(left) => w.lock.None? && w' == w.(lock := Some(t)) && p' == LoadLoop(w.clock.now, left)
    case LoadLoop(now, left) =>
      if left == [] then w' == w.(lock := None) && p' == Finished(Loaded)
      else
        var e, rest := left[0], LoadLoop(now, left[1..]);
        && w' == w
        && p' == if Expired(e.meta, now) then DeleteIfThere(e.meta.record.bodyPath, rest)
                 else IfExists(e.meta.record.bodyPath, LoadInsert(e, now, left[1..]), rest)
    case LoadInsert(e, now, left) => w' == w.(cache := w.cache[e.key := e.meta]) && p' == LoadLoop(now, left)
  }

  /** Task `t`, which still has to do `p`, takes one step. The step does not touch `tasks`. */
  ghost predicate Exec(config: Config, w: World, t: nat, p: Proc, w': World, p': Proc) {
    match p
    case Finished(_) => false
    case IfExists(path, yes, no) => w' == w && p' == if path in w.files then yes else no
    case Delete(path, next) => p' == next && (w' == w || w' == w.(files := w.files - {path}))
    case RemoveKey(key, next) => w.lock.None? && w' == w.(cache := w.cache - {key}) && p' == next
    case LookUp(_, _) => LookUpStep(config, w, p, w', p')
    case ReadBody(_, _, _) => ReadBodyStep(config, w, p, w', p')
    case WriteTemp(_) => PutStep(config, w, p, w', p')
    case RenameTemp(_) => PutStep(config, w, p, w', p')
    case Insert(_, _) => PutStep(config, w, p, w', p')
    case StoreLock(_) => StoreStep(w, t, p, w', p')
    case StoreScan(_, _, _, _) => StoreStep(w, t, p, w', p')
    case WriteMeta(_, _) => StoreStep(w, t, p, w', p')
    case RenameMeta(_) => StoreStep(w, t, p, w', p')
    case CleanStart(_, _) => CleanStep(config, w, p, w', p')
    case CleanPaths(_, _) => CleanStep(config, w, p, w', p')
    case CleanRead(_, _, _) => CleanStep(config, w, p, w', p')
    case CleanLoop(_, _, _, _, _, _) => CleanStep(config, w, p, w', p')
    case ScanDir(_, _, _, _) => SweepStep(w, p, w', p')
    case ScanFiles(_, _, _, _) => SweepStep(w, p, w', p')
    case OrphanStart => SweepStep(w, p, w', p')
    case OrphanDirs(_, _) => SweepStep(w, p, w', p')
    case LoadStart => LoadStep(w, t, p, w', p')
    case LoadLock(_) => LoadStep(w, t, p, w', p')
    case LoadLoop(_, _) => LoadStep(w, t, p, w', p')
    case LoadInsert(_, _, _) => LoadStep(w, t, p, w', p')
  }

  // ---------- The whole system ----------

  ghost predicate TaskStep(config: Config, w: World, t: nat, w': World) {
    t in w.tasks && exists x, p' :: Exec(config, w, t, w.tasks[t], x, p') && w' == x.(tasks := w.tasks[t := p'])
  }

  /** A request, or one round of a background pass, starts. Requests are served only after `load`. */
  ghost predicate StartStep(config: Config, w: World, t: nat, p: Proc, w': World) {
    && t !in w.tasks
    && w' == w.(tasks := w.tasks[t := p], puts := if p.WriteTemp? then w.puts + {p.job} else w.puts)
    && match p
       case LookUp(_, _) => w.serving
       case WriteTemp(job) => w.serving && IsPut(config, job)
       case StoreLock(_) => p == PeriodicPass() || p == StoreLock(Finished(Swept))
       case OrphanStart => true
       case _ => false
  }

  predicate IsPut(config: Config, job: PutRecord) {
    && PutDecision(config, job.response, job.body) == Stored
    && Encode(config.strategy, config.codec, job.body) == Some(job.raw)
  }

  ghost predicate ServeStep(w: World, w': World) {
    (exists t :: t in w.tasks && w.tasks[t] == Finished(Loaded)) && w' == w.(serving := true)
  }

  ghost predicate TickStep(w: World, w': World) {
    exists clock: Clock :: clock.now >= w.clock.now && w' == w.(clock := clock)
  }

  /** A task is dropped between two of its steps, as a request is whose client has gone; a lock that it holds is
      released. */
  ghost predicate CancelStep(w: World, t: nat, w': World) {
    && t in w.tasks && t != 0
    && w' == w.(tasks := w.tasks[t := Finished(Cancelled)], lock := if w.lock == Some(t) then None else w.lock)
  }

  predicate BeingWritten(config: Config, w: World, f: FilePath) {
    exists t :: t in w.tasks && w.tasks[t].WriteTemp? && f == TempOf(BodyPath(config, w.tasks[t].job.key))
  }

  /** A crash: the map, the lock and the tasks are gone; a temporary file that was being written may hold
      anything. The new process begins with `load`. */
  ghost predicate CrashStep(config: Config, w: World, w': World) {
    && w' == w.(cache := map[], lock := None, tasks := map[0 := LoadStart], serving := false, files := w'.files,
         metaTemp := w'.metaTemp)
    && (forall f :: f in w'.files && f !in w.files ==> BeingWritten(config, w, f))
    && (forall f :: f in w.files ==> f in w'.files)
    && (forall f :: f in w.files && w'.files[f] != w.files[f] ==> BeingWritten(config, w, f))
    && (w'.metaTemp != w.metaTemp ==> exists t :: t in w.tasks && w.tasks[t].WriteMeta?)
  }

  ghost predicate WorldStep(config: Config, w: World, w': World) {
    || (exists t :: TaskStep(config, w, t, w'))
    || (exists t, p :: StartStep(config, w, t, p, w'))
    || ServeStep(w, w')
    || TickStep(w, w')
    || (exists t :: CancelStep(w, t, w'))
    || CrashStep(config, w, w')
  }

  /** A first start on an empty cache directory. */
  ghost predicate Initial(w: World) {
    && w.cache == map[] && w.files == map[] && w.snapshot == None && w.metaTemp == None && w.lock == None
    && w.tasks == map[0 := LoadStart] && !w.serving && w.puts == {}
  }

  ghost predicate StepAt(config: Config, run: seq<World>, i: nat)
    requires i + 1 < |run|
  {
    WorldStep(config, run[i], run[i + 1])
  }

  ghost predicate IsRun(config: Config, run: seq<World>) {
    |run| > 0 && Initial(run[0]) && forall i :: 0 <= i < |run| - 1 ==> StepAt(config, run, i)
  }
}
