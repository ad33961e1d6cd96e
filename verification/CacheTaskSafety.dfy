/** In every interleaving, with failures, crashes and restarts: body files are whole, and hits are genuine. */
module CacheTaskSafety {
  import opened Wrappers
  import opened CacheTypes
  import opened CacheFacts
  import opened CacheSpec
  import opened CacheTasks

  // ---------- What the invariant says of single things ----------

  /** `raw` is the whole encoded body of one accepted put whose key maps to the body file `path`. */
  ghost predicate WholeBody(config: Config, puts: set<PutRecord>, path: FilePath, raw: Bytes) {
    exists job :: job in puts && BodyPath(config, job.key) == path && job.raw == raw
  }

  ghost predicate FromPut(config: Config, puts: set<PutRecord>, key: string, record: Record) {
    exists job :: job in puts && job.key == key && RecordOf(config, job) == record
  }

  ghost predicate EntriesFromPuts(config: Config, puts: set<PutRecord>, entries: seq<Entry>) {
    forall e :: e in entries ==> FromPut(config, puts, e.key, e.meta.record)
  }

  ghost predicate StoredFromPuts(config: Config, puts: set<PutRecord>, stored: Meta) {
    stored.Some? ==> forall e :: e in stored.value ==> FromPut(config, puts, e.key, e.record)
  }

  /** A hit for `key` carries the decoded body of a put whose key shares the body file, and the headers, status
      and encoding of a put of `key`. */
  ghost predicate Genuine(config: Config, puts: set<PutRecord>, key: string, result: Lookup) {
    result.Hit? ==>
      && (exists raw :: WholeBody(config, puts, BodyPath(config, key), raw) &&
            Decode(config.codec, raw) == Some(result.body))
      && (exists record :: FromPut(config, puts, key, record) &&
            result.headers == record.headers && result.status == record.status &&
            result.originalEncoding == record.originalEncoding)
  }

  ghost predicate SafeResult(config: Config, puts: set<PutRecord>, result: TaskResult) {
    result.Found? ==> Genuine(config, puts, result.key, result.result)
  }

  predicate Renames(p: Proc) {
    p.RenameTemp? || p.RenameMeta?
  }

  /** A task only ever works with entries and bodies that come from puts, and renames nothing that it has not
      just written: a continuation never begins with a rename. */
  ghost predicate SafeProc(config: Config, puts: set<PutRecord>, p: Proc) {
    match p
    case Finished(result) => SafeResult(config, puts, result)
    case IfExists(_, yes, no) =>
      !Renames(yes) && !Renames(no) && SafeProc(config, puts, yes) && SafeProc(config, puts, no)
    case Delete(_, next) => !Renames(next) && SafeProc(config, puts, next)
    case RemoveKey(_, next) => !Renames(next) && SafeProc(config, puts, next)
    case ReadBody(key, meta, _) => FromPut(config, puts, key, meta.record)
    case WriteTemp(job) => job in puts
    case RenameTemp(job) => job in puts
    case Insert(job, _) => job in puts
    case StoreLock(next) => !Renames(next) && SafeProc(config, puts, next)
    case StoreScan(_, _, listed, next) =>
      EntriesFromPuts(config, puts, listed) && !Renames(next) && SafeProc(config, puts, next)
    case WriteMeta(entries, next) =>
      EntriesFromPuts(config, puts, entries) && !Renames(next) && SafeProc(config, puts, next)
    case RenameMeta(next) => !Renames(next) && SafeProc(config, puts, next)
    case CleanStart(_, next) => !Renames(next) && SafeProc(config, puts, next)
    case CleanPaths(_, next) => !Renames(next) && SafeProc(config, puts, next)
    case CleanRead(_, _, next) => !Renames(next) && SafeProc(config, puts, next)
    case CleanLoop(_, _, _, left, kept, next) =>
      && EntriesFromPuts(config, puts, left) && EntriesFromPuts(config, puts, kept)
      && !Renames(next) && SafeProc(config, puts, next)
    case ScanDir(_, _, _, next) => !Renames(next) && SafeProc(config, puts, next)
    case ScanFiles(_, _, _, next) => !Renames(next) && SafeProc(config, puts, next)
    case LoadLock(left) => EntriesFromPuts(config, puts, left)
    case LoadLoop(_, left) => EntriesFromPuts(config, puts, left)
    case LoadInsert(entry, _, left) =>
      FromPut(config, puts, entry.key, entry.meta.record) && EntriesFromPuts(config, puts, left)
    case _ => true
  }

  /** A safe continuation. */
  ghost predicate SafeNext(config: Config, puts: set<PutRecord>, p: Proc) {
    !Renames(p) && SafeProc(config, puts, p)
  }

  // ---------- The invariant ----------

  ghost predicate BodiesWhole(config: Config, puts: set<PutRecord>, files: Files) {
    forall f :: f in files && f.ext == BIN ==> WholeBody(config, puts, f, files[f])
  }

  /** A temporary file that some task is about to rename is a whole body. */
  ghost predicate TempsWhole(config: Config, puts: set<PutRecord>, files: Files, tasks: map<nat, Proc>) {
    forall t :: t in tasks && tasks[t].RenameTemp? ==>
      TempWhole(config, puts, files, BodyPath(config, tasks[t].job.key))
  }

  ghost predicate TempWhole(config: Config, puts: set<PutRecord>, files: Files, path: FilePath) {
    TempOf(path) in files ==> WholeBody(config, puts, path, files[TempOf(path)])
  }

  ghost predicate MapFromPuts(config: Config, puts: set<PutRecord>, cache: Cache) {
    forall k :: k in cache ==> FromPut(config, puts, k, cache[k].record)
  }

  ghost predicate TasksSafe(config: Config, puts: set<PutRecord>, tasks: map<nat, Proc>) {
    forall t :: t in tasks ==> SafeProc(config, puts, tasks[t])
  }

  ghost predicate DataSafe(config: Config, w: World) {
    && BodiesWhole(config, w.puts, w.files)
    && MapFromPuts(config, w.puts, w.cache)
    && StoredFromPuts(config, w.puts, w.snapshot)
  }

  /** Every recorded put passed the tests of `put_cache`, and its bytes are the encoding of its body. */
  ghost predicate PutsAccepted(config: Config, puts: set<PutRecord>) {
    forall job :: job in puts ==> IsPut(config, job)
  }

  ghost predicate Safe(config: Config, w: World) {
    && PutsAccepted(config, w.puts)
    && DataSafe(config, w)
    && TempsWhole(config, w.puts, w.files, w.tasks)
    && ((exists t :: t in w.tasks && w.tasks[t].RenameMeta?) ==> StoredFromPuts(config, w.puts, w.metaTemp))
    && TasksSafe(config, w.puts, w.tasks)
  }

  // ---------- More puts spoil nothing ----------

  lemma {:induction false} SafeProcGrows(config: Config, puts: set<PutRecord>, more: set<PutRecord>, p: Proc)
    requires SafeProc(config, puts, p) && puts <= more
    ensures SafeProc(config, more, p)
    decreases p
  {
    match p
    case IfExists(_, yes, no) => SafeProcGrows(config, puts, more, yes); SafeProcGrows(config, puts, more, no);
    case Delete(_, next) => SafeProcGrows(config, puts, more, next);
    case RemoveKey(_, next) => SafeProcGrows(config, puts, more, next);
    case StoreLock(next) => SafeProcGrows(config, puts, more, next);
    case StoreScan(_, _, _, next) => SafeProcGrows(config, puts, more, next);
    case WriteMeta(_, next) => SafeProcGrows(config, puts, more, next);
    case RenameMeta(next) => SafeProcGrows(config, puts, more, next);
    case CleanStart(_, next) => SafeProcGrows(config, puts, more, next);
    case CleanPaths(_, next) => SafeProcGrows(config, puts, more, next);
    case CleanRead(_, _, next) => SafeProcGrows(config, puts, more, next);
    case CleanLoop(_, _, _, _, _, next) => SafeProcGrows(config, puts, more, next);
    case ScanDir(_, _, _, next) => SafeProcGrows(config, puts, more, next);
    case ScanFiles(_, _, _, next) => SafeProcGrows(config, puts, more, next);
    case _ =>
  }

  // ---------- Each step keeps the invariant ----------

  /** What one step of one task must establish. */
  ghost predicate StepSafe(config: Config, w: World, w': World, p': Proc) {
    && w'.puts == w.puts && w'.tasks == w.tasks && DataSafe(config, w')
    && (forall path: FilePath :: path.ext == BIN && TempWhole(config, w.puts, w.files, path) ==>
          TempWhole(config, w.puts, w'.files, path))
    && (p'.RenameTemp? ==> TempWhole(config, w.puts, w'.files, BodyPath(config, p'.job.key)))
    && (StoredFromPuts(config, w.puts, w.metaTemp) || p'.RenameMeta? ==> StoredFromPuts(config, w.puts, w'.metaTemp))
    && SafeProc(config, w.puts, p')
  }

  lemma EntriesShrink(config: Config, puts: set<PutRecord>, entries: seq<Entry>)
    requires EntriesFromPuts(config, puts, entries) && entries != []
    ensures FromPut(config, puts, entries[0].key, entries[0].meta.record)
    ensures EntriesFromPuts(config, puts, entries[1..])
  {
  }

  lemma PersistIsSafe(config: Config, puts: set<PutRecord>, key: string, withBucket: bool, next: Proc)
    requires SafeNext(config, puts, next)
    ensures SafeNext(config, puts, Persist(config, key, withBucket, next))
  {
  }

  lemma MissIsSafe(config: Config, puts: set<PutRecord>, key: string, withBucket: bool)
    ensures SafeNext(config, puts, MissAfter(config, key, withBucket))
  {
  }

  lemma DeleteIfThereIsSafe(config: Config, puts: set<PutRecord>, path: FilePath, next: Proc)
    requires SafeNext(config, puts, next)
    ensures SafeNext(config, puts, DeleteIfThere(path, next))
  {
  }

  predicate SameData(w: World, w': World) {
    && w'.cache == w.cache && w'.files == w.files && w'.snapshot == w.snapshot && w'.metaTemp == w.metaTemp
    && w'.tasks == w.tasks && w'.puts == w.puts
  }

  /** Steps that change nothing but the lock and what the stepping task has still to do. */
  lemma QuietStepIsSafe(config: Config, w: World, w': World, p': Proc)
    requires DataSafe(config, w) && SafeNext(config, w.puts, p')
    requires SameData(w, w')
    ensures StepSafe(config, w, w', p')
  {
  }

  lemma LookUpIsSafe(config: Config, w: World, p: Proc, w': World, p': Proc)
    requires MapFromPuts(config, w.puts, w.cache) && p.LookUp? && LookUpStep(config, w, p, w', p')
    ensures SafeNext(config, w.puts, p')
  {
    hide SafeProc, AfterUnknown, AfterFound;
    if p.key in w.cache {
      AfterFoundIsSafe(config, w.puts, p.key, w.cache[p.key], p.withBucket, w.clock.now);
    } else {
      AfterUnknownIsSafe(config, w.puts, p.key, p.withBucket);
    }
  }

  lemma AfterUnknownIsSafe(config: Config, puts: set<PutRecord>, key: string, withBucket: bool)
    ensures SafeNext(config, puts, AfterUnknown(config, key, withBucket))
  {
    MissIsSafe(config, puts, key, withBucket);
  }

  lemma AfterFoundIsSafe(
    config: Config, puts: set<PutRecord>, key: string, meta: Metadata, withBucket: bool, now: int)
    requires FromPut(config, puts, key, meta.record)
    ensures SafeNext(config, puts, AfterFound(config, key, meta, withBucket, now))
  {
    hide Expired, MissAfter;
    var path, miss := meta.record.bodyPath, MissAfter(config, key, withBucket);
    MissIsSafe(config, puts, key, withBucket);
    DeleteIfThereIsSafe(config, puts, path, miss);
    assert SafeProc(config, puts, ReadBody(key, meta, withBucket));
    assert SafeProc(config, puts, RemoveKey(key, miss));
  }

  lemma DeleteIsSafe(config: Config, puts: set<PutRecord>, path: FilePath, next: Proc)
    requires SafeNext(config, puts, next)
    ensures SafeNext(config, puts, Delete(path, next))
  {
  }

  lemma RemoveKeyIsSafe(config: Config, puts: set<PutRecord>, key: string, next: Proc)
    requires SafeNext(config, puts, next)
    ensures SafeNext(config, puts, RemoveKey(key, next))
  {
  }

  lemma ReadBodyIsSafe(config: Config, w: World, p: Proc, w': World, p': Proc)
    requires BodiesWhole(config, w.puts, w.files)
    requires p.ReadBody? && SafeProc(config, w.puts, p) && ReadBodyStep(config, w, p, w', p')
    ensures SafeNext(config, w.puts, p')
  {
    var path, record := p.meta.record.bodyPath, p.meta.record;
    if p'.Finished? {
      BodyPathIsAShardBin(config, p.key);
      assert path == BodyPath(config, p.key);
      assert WholeBody(config, w.puts, path, w.files[path]);
      assert Genuine(config, w.puts, p.key, p'.result.result);
    } else {
      var miss := MissAfter(config, p.key, p.withBucket);
      MissIsSafe(config, w.puts, p.key, p.withBucket);
      DeleteIsSafe(config, w.puts, path, miss);
      RemoveKeyIsSafe(config, w.puts, p.key, miss);
      RemoveKeyIsSafe(config, w.puts, p.key, Delete(path, miss));
    }
  }

  lemma WriteTempIsSafe(config: Config, w: World, p: Proc, w': World, p': Proc)
    requires DataSafe(config, w) && p.WriteTemp? && p.job in w.puts && PutStep(config, w, p, w', p')
    ensures StepSafe(config, w, w', p')
  {
    var path := BodyPath(config, p.job.key);
    BodyPathIsAShardBin(config, p.job.key);
    assert WholeBody(config, w.puts, path, p.job.raw);
    forall q: FilePath | q.ext == BIN && TempOf(q) == TempOf(path) ensures q == path {
      assert q == TempOf(q).(ext := BIN);
    }
  }

  lemma RenameTempIsSafe(config: Config, w: World, p: Proc, w': World, p': Proc)
    requires DataSafe(config, w) && p.RenameTemp? && p.job in w.puts && PutStep(config, w, p, w', p')
    requires TempWhole(config, w.puts, w.files, BodyPath(config, p.job.key))
    ensures StepSafe(config, w, w', p')
  {
  }

  lemma InsertIsSafe(config: Config, w: World, p: Proc, w': World, p': Proc)
    requires DataSafe(config, w) && p.Insert? && p.job in w.puts && PutStep(config, w, p, w', p')
    ensures StepSafe(config, w, w', p')
  {
    assert FromPut(config, w.puts, p.job.key, RecordOf(config, p.job));
    AfterInsertIsSafe(config, w, p.job);
  }

  lemma AfterInsertIsSafe(config: Config, w: World, job: PutRecord)
    ensures SafeNext(config, w.puts, StoreAfterPut(config, job))
    ensures SafeNext(config, w.puts, Persist(config, job.key, job.withBucket, StoreAfterPut(config, job)))
    ensures forall path ::
      SafeNext(config, w.puts,
        DeleteIfThere(path, Persist(config, job.key, job.withBucket, StoreAfterPut(config, job))))
  {
    var after := StoreAfterPut(config, job);
    assert SafeNext(config, w.puts, Finished(PutEnded(Stored)));
    PersistIsSafe(config, w.puts, job.key, job.withBucket, after);
    var persist := Persist(config, job.key, job.withBucket, after);
    forall path ensures SafeNext(config, w.puts, DeleteIfThere(path, persist)) {
      DeleteIfThereIsSafe(config, w.puts, path, persist);
    }
  }

  lemma StoreScanIsSafe(config: Config, w: World, t: nat, p: Proc, w': World, p': Proc)
    requires MapFromPuts(config, w.puts, w.cache)
    requires p.StoreScan? && SafeProc(config, w.puts, p) && StoreStep(w, t, p, w', p')
    ensures SafeNext(config, w.puts, p')
  {
    hide SafeProc, Scanned;
    if p.todo != {} {
      var key :| key in p.todo && key in w.cache && p' == Scanned(p, key, w.cache[key]);
      AfterScanned(config, w.puts, p, key, w.cache[key]);
    } else {
      AfterScan(config, w.puts, p);
    }
  }

  lemma AfterScan(config: Config, puts: set<PutRecord>, p: Proc)
    requires p.StoreScan? && SafeProc(config, puts, p)
    ensures SafeNext(config, puts, WriteMeta(p.listed, p.next))
  {
  }

  lemma AfterScanned(config: Config, puts: set<PutRecord>, p: Proc, key: string, meta: Metadata)
    requires p.StoreScan? && SafeProc(config, puts, p) && FromPut(config, puts, key, meta.record)
    ensures SafeNext(config, puts, Scanned(p, key, meta))
  {
  }

  lemma StoreLockIsSafe(config: Config, w: World, t: nat, p: Proc, w': World, p': Proc)
    requires p.StoreLock? && SafeProc(config, w.puts, p) && StoreStep(w, t, p, w', p')
    ensures SafeNext(config, w.puts, p')
  {
  }

  lemma WriteMetaIsSafe(config: Config, w: World, t: nat, p: Proc, w': World, p': Proc)
    requires DataSafe(config, w) && p.WriteMeta? && SafeProc(config, w.puts, p) && StoreStep(w, t, p, w', p')
    ensures StepSafe(config, w, w', p')
  {
  }

  lemma RenameMetaIsSafe(config: Config, w: World, t: nat, p: Proc, w': World, p': Proc)
    requires DataSafe(config, w) && p.RenameMeta? && SafeProc(config, w.puts, p)
    requires StoredFromPuts(config, w.puts, w.metaTemp) && StoreStep(w, t, p, w', p')
    ensures StepSafe(config, w, w', p')
  {
  }

  lemma CleanIsSafe(config: Config, w: World, p: Proc, w': World, p': Proc)
    requires StoredFromPuts(config, w.puts, w.snapshot)
    requires (p.CleanStart? || p.CleanPaths? || p.CleanRead?) && SafeProc(config, w.puts, p)
    requires CleanStep(config, w, p, w', p')
    ensures SafeNext(config, w.puts, p')
  {
  }

  lemma CleanLoopIsSafe(config: Config, w: World, p: Proc, w': World, p': Proc)
    requires p.CleanLoop? && SafeProc(config, w.puts, p) && CleanStep(config, w, p, w', p')
    ensures SafeNext(config, w.puts, p')
  {
    hide SafeProc, Expired;
    if p.left == [] {
      AfterClean(config, w.puts, p);
    } else {
      AfterCleaned(config, w.puts, p);
    }
  }

  lemma AfterClean(config: Config, puts: set<PutRecord>, p: Proc)
    requires p.CleanLoop? && SafeProc(config, puts, p)
    ensures SafeNext(config, puts, WriteMeta(p.kept, p.next))
    ensures p.shard.Some? ==>
      SafeNext(config, puts, ScanDir(ShardDir(p.shard.value), p.valid, false, WriteMeta(p.kept, p.next)))
  {
  }

  lemma AfterCleaned(config: Config, puts: set<PutRecord>, p: Proc)
    requires p.CleanLoop? && SafeProc(config, puts, p) && p.left != []
    ensures var e := p.left[0];
      var keep := CleanLoop(p.shard, p.valid, p.now, p.left[1..], p.kept + [e], p.next);
      var drop := CleanLoop(p.shard, p.valid, p.now, p.left[1..], p.kept, p.next);
      && SafeNext(config, puts, keep) && SafeNext(config, puts, drop)
      && SafeNext(config, puts, DeleteIfThere(e.meta.record.bodyPath, drop))
      && SafeNext(config, puts, IfExists(e.meta.record.bodyPath, keep, drop))
  {
  }

  lemma SweepIsSafe(config: Config, w: World, p: Proc, w': World, p': Proc)
    requires p.ScanDir? || p.ScanFiles? || p.OrphanStart? || p.OrphanDirs?
    requires SafeProc(config, w.puts, p) && SweepStep(w, p, w', p')
    ensures SafeNext(config, w.puts, p')
  {
  }

  lemma LoadStartIsSafe(config: Config, w: World, t: nat, p: Proc, w': World, p': Proc)
    requires StoredFromPuts(config, w.puts, w.snapshot)
    requires (p.LoadStart? || p.LoadLock?) && SafeProc(config, w.puts, p) && LoadStep(w, t, p, w', p')
    ensures SafeNext(config, w.puts, p')
  {
  }

  lemma LoadLoopIsSafe(config: Config, w: World, t: nat, p: Proc, w': World, p': Proc)
    requires p.LoadLoop? && SafeProc(config, w.puts, p) && LoadStep(w, t, p, w', p')
    ensures SafeNext(config, w.puts, p')
  {
    if p.left != [] {
      hide SafeProc, Expired;
      AfterLoaded(config, w.puts, p);
    }
  }

  lemma AfterLoaded(config: Config, puts: set<PutRecord>, p: Proc)
    requires p.LoadLoop? && SafeProc(config, puts, p) && p.left != []
    ensures var e, rest := p.left[0], LoadLoop(p.now, p.left[1..]);
      && SafeNext(config, puts, DeleteIfThere(e.meta.record.bodyPath, rest))
      && SafeNext(config, puts, IfExists(e.meta.record.bodyPath, LoadInsert(e, p.now, p.left[1..]), rest))
  {
    EntriesShrink(config, puts, p.left);
    var e, rest := p.left[0], LoadLoop(p.now, p.left[1..]);
    assert SafeProc(config, puts, rest) && SafeProc(config, puts, LoadInsert(e, p.now, p.left[1..]));
    DeleteIfThereIsSafe(config, puts, e.meta.record.bodyPath, rest);
  }

  lemma LoadInsertIsSafe(config: Config, w: World, t: nat, p: Proc, w': World, p': Proc)
    requires DataSafe(config, w) && p.LoadInsert? && SafeProc(config, w.puts, p) && LoadStep(w, t, p, w', p')
    ensures StepSafe(config, w, w', p')
  {
  }

  /** The steps that are quiet. */
  predicate Quiet(p: Proc) {
    || p.LookUp? || p.ReadBody? || p.StoreLock? || p.StoreScan?
    || p.CleanStart? || p.CleanPaths? || p.CleanRead? || p.CleanLoop?
    || p.ScanDir? || p.ScanFiles? || p.OrphanStart? || p.OrphanDirs?
    || p.LoadStart? || p.LoadLock? || p.LoadLoop?
  }

  lemma QuietKeepsData(config: Config, w: World, t: nat, p: Proc, w': World, p': Proc)
    requires Quiet(p) && Exec(config, w, t, p, w', p')
    ensures SameData(w, w')
  {
    hide SameData, LookUpStep, ReadBodyStep, StoreStep, CleanStep, SweepStep, LoadStep;
    if p.LookUp? || p.ReadBody? { QuietLookupsKeepData(config, w, t, p, w', p'); }
    else if p.StoreLock? || p.StoreScan? || p.LoadStart? || p.LoadLock? || p.LoadLoop? {
      QuietListsKeepData(config, w, t, p, w', p');
    }
    else { QuietSweepsKeepData(config, w, t, p, w', p'); }
  }

  lemma QuietLookupsKeepData(config: Config, w: World, t: nat, p: Proc, w': World, p': Proc)
    requires (p.LookUp? || p.ReadBody?) && Exec(config, w, t, p, w', p')
    ensures SameData(w, w')
  {
    hide AfterUnknown, AfterFound, MissAfter, Decode, Expired, StoreStep, CleanStep, SweepStep, LoadStep, PutStep;
  }

  lemma QuietListsKeepData(config: Config, w: World, t: nat, p: Proc, w': World, p': Proc)
    requires p.StoreLock? || p.StoreScan? || p.LoadStart? || p.LoadLock? || p.LoadLoop?
    requires Exec(config, w, t, p, w', p')
    ensures SameData(w, w')
  {
    hide Scanned, DeleteIfThere, ReadEntries, Expired, LookUpStep, ReadBodyStep, CleanStep, SweepStep, PutStep;
  }

  lemma QuietSweepsKeepData(config: Config, w: World, t: nat, p: Proc, w': World, p': Proc)
    requires p.CleanStart? || p.CleanPaths? || p.CleanRead? || p.CleanLoop? || p.ScanDir? || p.ScanFiles?
      || p.OrphanStart? || p.OrphanDirs?
    requires Exec(config, w, t, p, w', p')
    ensures SameData(w, w')
  {
    hide DeleteIfThere, ReadEntries, Paths, Expired, ShardDir, LookUpStep, ReadBodyStep, StoreStep, LoadStep, PutStep;
  }

  lemma QuietIsSafe(config: Config, w: World, t: nat, p: Proc, w': World, p': Proc)
    requires DataSafe(config, w) && SafeProc(config, w.puts, p) && Quiet(p) && Exec(config, w, t, p, w', p')
    ensures SafeNext(config, w.puts, p')
  {
    hide SafeProc, LookUpStep, ReadBodyStep, StoreStep, CleanStep, SweepStep, LoadStep;
    if p.LookUp? { LookUpIsSafe(config, w, p, w', p'); }
    else if p.ReadBody? { ReadBodyIsSafe(config, w, p, w', p'); }
    else if p.StoreLock? { StoreLockIsSafe(config, w, t, p, w', p'); }
    else if p.StoreScan? { StoreScanIsSafe(config, w, t, p, w', p'); }
    else if p.CleanStart? || p.CleanPaths? || p.CleanRead? { CleanIsSafe(config, w, p, w', p'); }
    else if p.CleanLoop? { CleanLoopIsSafe(config, w, p, w', p'); }
    else if p.LoadLoop? { LoadLoopIsSafe(config, w, t, p, w', p'); }
    else if p.LoadStart? || p.LoadLock? { LoadStartIsSafe(config, w, t, p, w', p'); }
    else { SweepIsSafe(config, w, p, w', p'); }
  }

  lemma ExecIsSafe(config: Config, w: World, t: nat, p: Proc, w': World, p': Proc)
    requires DataSafe(config, w) && SafeProc(config, w.puts, p) && Exec(config, w, t, p, w', p')
    requires p.RenameTemp? ==> TempWhole(config, w.puts, w.files, BodyPath(config, p.job.key))
    requires p.RenameMeta? ==> StoredFromPuts(config, w.puts, w.metaTemp)
    ensures StepSafe(config, w, w', p')
  {
    hide LookUpStep, ReadBodyStep, PutStep, StoreStep, CleanStep, SweepStep, LoadStep;
    if Quiet(p) {
      QuietIsSafe(config, w, t, p, w', p');
      QuietKeepsData(config, w, t, p, w', p');
      QuietStepIsSafe(config, w, w', p');
    }
    else if p.WriteTemp? { WriteTempIsSafe(config, w, p, w', p'); }
    else if p.RenameTemp? { RenameTempIsSafe(config, w, p, w', p'); }
    else if p.Insert? { InsertIsSafe(config, w, p, w', p'); }
    else if p.WriteMeta? { WriteMetaIsSafe(config, w, t, p, w', p'); }
    else if p.RenameMeta? { RenameMetaIsSafe(config, w, t, p, w', p'); }
    else if p.LoadInsert? { LoadInsertIsSafe(config, w, t, p, w', p'); }
  }

  lemma TaskStepIsSafe(config: Config, w: World, t: nat, w': World)
    requires Safe(config, w) && TaskStep(config, w, t, w')
    ensures Safe(config, w')
  {
    var x, p' :| Exec(config, w, t, w.tasks[t], x, p') && w' == x.(tasks := w.tasks[t := p']);
    ExecIsSafe(config, w, t, w.tasks[t], x, p');
    forall u | u in w'.tasks && w'.tasks[u].RenameTemp?
      ensures TempWhole(config, w'.puts, w'.files, BodyPath(config, w'.tasks[u].job.key))
    {
      if u != t {
        BodyPathIsAShardBin(config, w.tasks[u].job.key);
        assert TempWhole(config, w.puts, w.files, BodyPath(config, w.tasks[u].job.key));
      }
    }
    if exists u :: u in w'.tasks && w'.tasks[u].RenameMeta? {
      var u :| u in w'.tasks && w'.tasks[u].RenameMeta?;
      if u != t {
        assert u in w.tasks && w.tasks[u].RenameMeta?;
      }
    }
  }

  lemma StartStepIsSafe(config: Config, w: World, t: nat, p: Proc, w': World)
    requires Safe(config, w) && StartStep(config, w, t, p, w')
    ensures Safe(config, w')
  {
    StartedIsSafe(config, w, t, p, w');
    hide SafeProc, IsPut, FromPut, StartStep;
    forall u | u in w.tasks ensures SafeProc(config, w'.puts, w.tasks[u]) {
      SafeProcGrows(config, w.puts, w'.puts, w.tasks[u]);
    }
    forall u | u in w'.tasks && w'.tasks[u].RenameTemp?
      ensures TempWhole(config, w'.puts, w'.files, BodyPath(config, w'.tasks[u].job.key))
    {
      assert TempWhole(config, w.puts, w.files, BodyPath(config, w.tasks[u].job.key));
    }
    if exists u :: u in w'.tasks && w'.tasks[u].RenameMeta? {
      var u :| u in w'.tasks && w'.tasks[u].RenameMeta?;
      assert u in w.tasks && w.tasks[u].RenameMeta?;
    }
    MorePutsAreFine(config, w, w');
  }

  lemma StartedIsSafe(config: Config, w: World, t: nat, p: Proc, w': World)
    requires Safe(config, w) && StartStep(config, w, t, p, w')
    ensures SafeNext(config, w'.puts, p) && w.puts <= w'.puts && PutsAccepted(config, w'.puts)
    ensures w' == w.(tasks := w.tasks[t := p], puts := w'.puts) && t !in w.tasks
  {
    if p.StoreLock? {
      assert SafeNext(config, w'.puts, Finished(Swept));
      assert SafeNext(config, w'.puts, CleanStart(None, Finished(Swept)));
    }
  }

  lemma MorePutsAreFine(config: Config, w: World, w': World)
    requires DataSafe(config, w) && w.puts <= w'.puts && w' == w.(tasks := w'.tasks, puts := w'.puts)
    ensures DataSafe(config, w')
    ensures StoredFromPuts(config, w.puts, w.metaTemp) ==> StoredFromPuts(config, w'.puts, w'.metaTemp)
  {
  }

  lemma CrashStepIsSafe(config: Config, w: World, w': World)
    requires Safe(config, w) && CrashStep(config, w, w')
    ensures Safe(config, w')
  {
  }

  lemma CancelStepIsSafe(config: Config, w: World, t: nat, w': World)
    requires Safe(config, w) && CancelStep(w, t, w')
    ensures Safe(config, w')
  {
    forall u | u in w'.tasks && w'.tasks[u].RenameTemp?
      ensures TempWhole(config, w'.puts, w'.files, BodyPath(config, w'.tasks[u].job.key))
    {
      assert TempWhole(config, w.puts, w.files, BodyPath(config, w.tasks[u].job.key));
    }
    if exists u :: u in w'.tasks && w'.tasks[u].RenameMeta? {
      var u :| u in w'.tasks && w'.tasks[u].RenameMeta?;
      assert u in w.tasks && w.tasks[u].RenameMeta?;
    }
  }

  lemma WorldStepIsSafe(config: Config, w: World, w': World)
    requires Safe(config, w) && WorldStep(config, w, w')
    ensures Safe(config, w')
  {
    hide Safe, TaskStep, StartStep, CancelStep, CrashStep, ServeStep, TickStep;
    if t :| TaskStep(config, w, t, w') {
      TaskStepIsSafe(config, w, t, w');
    } else if t, p :| StartStep(config, w, t, p, w') {
      StartStepIsSafe(config, w, t, p, w');
    } else if t :| CancelStep(w, t, w') {
      CancelStepIsSafe(config, w, t, w');
    } else if CrashStep(config, w, w') {
      CrashStepIsSafe(config, w, w');
    } else {
      OtherStepsAreSafe(config, w, w');
    }
  }

  lemma OtherStepsAreSafe(config: Config, w: World, w': World)
    requires Safe(config, w) && (ServeStep(w, w') || TickStep(w, w'))
    ensures Safe(config, w')
  {
    hide SafeProc, WholeBody, FromPut;
  }

  lemma {:induction false} EveryRunIsSafe(config: Config, run: seq<World>, i: nat)
    requires IsRun(config, run) && i < |run|
    ensures Safe(config, run[i])
    decreases i
  {
    hide WorldStep;
    if i > 0 {
      EveryRunIsSafe(config, run, i - 1);
      assert StepAt(config, run, i - 1);
      WorldStepIsSafe(config, run[i - 1], run[i]);
    }
  }

  /** In every reachable state every `.bin` file is the whole encoding of the body of one accepted put whose key
      maps to it. */
  lemma EveryBodyFileIsWhole(config: Config, run: seq<World>, i: nat, f: FilePath)
    requires IsRun(config, run) && i < |run| && f in run[i].files && f.ext == BIN
    ensures exists job :: (
      && job in run[i].puts && BodyPath(config, job.key) == f
      && PutDecision(config, job.response, job.body) == Stored
      && Encode(config.strategy, config.codec, job.body) == Some(run[i].files[f]))
  {
    EveryRunIsSafe(config, run, i);
    assert WholeBody(config, run[i].puts, f, run[i].files[f]);
    var job :| job in run[i].puts && BodyPath(config, job.key) == f && job.raw == run[i].files[f];
    assert IsPut(config, job);
  }

  /** What is stored for this body can be read back. */
  ghost predicate ReadsBack(config: Config, body: Bytes) {
    if config.strategy == All then GzipRoundTrips(config.codec) else Unsniffed(config.codec, body)
  }

  /** The key shares its checksum with no other key that was put. */
  ghost predicate OwnChecksum(config: Config, puts: set<PutRecord>, key: string) {
    forall job :: job in puts && config.crc(job.key) == config.crc(key) ==> job.key == key
  }

  /** The body of a hit for `key` is what the encoded body of the accepted put `job` decodes to: `job`'s own body,
      if that can be read back. */
  ghost predicate ServesBodyOf(config: Config, job: PutRecord, key: string, hit: Lookup) {
    && hit.Hit? && job.key == key && IsPut(config, job) && Decode(config.codec, job.raw) == Some(hit.body)
    && (ReadsBack(config, job.body) ==> hit.body == job.body)
  }

  ghost predicate ServesHeadersOf(config: Config, job: PutRecord, key: string, hit: Lookup) {
    hit.Hit? && job.key == key && IsPut(config, job)
    && hit.headers == job.response.headers && hit.status == job.response.status
  }

  /** Whatever a lookup of `key` has hit, its body is that of an accepted put of the same key, and its headers and
      status are those of an accepted put of that key, unless some put under another key shared its checksum. */
  lemma EveryHitIsGenuine(config: Config, run: seq<World>, i: nat, t: nat, key: string, hit: Lookup)
    requires IsRun(config, run) && i < |run| && OwnChecksum(config, run[i].puts, key)
    requires t in run[i].tasks && run[i].tasks[t] == Finished(Found(key, hit)) && hit.Hit?
    ensures exists a :: a in run[i].puts && ServesBodyOf(config, a, key, hit)
    ensures exists b :: b in run[i].puts && ServesHeadersOf(config, b, key, hit)
  {
    EveryRunIsSafe(config, run, i);
    var puts := run[i].puts;
    assert SafeProc(config, puts, run[i].tasks[t]);
    var raw :|
      WholeBody(config, puts, BodyPath(config, key), raw) && Decode(config.codec, raw) == Some(hit.body);
    var a :| a in puts && BodyPath(config, a.key) == BodyPath(config, key) && a.raw == raw;
    SamePathIffSameCrc(config, a.key, key);
    if ReadsBack(config, a.body) {
      BodyRoundTrips(config, a.body);
    }
    assert ServesBodyOf(config, a, key, hit);
    var record :| FromPut(config, puts, key, record) && hit.headers == record.headers
      && hit.status == record.status && hit.originalEncoding == record.originalEncoding;
    var b :| b in puts && b.key == key && RecordOf(config, b) == record;
    assert ServesHeadersOf(config, b, key, hit);
  }

  /** In every reachable state all entries have the configured ttl. So a put that evicts takes an entry that has
      expired whenever an expired entry is there. */
  lemma EvictionPrefersExpired(
    config: Config, run: seq<World>, i: nat, t: nat, x: World, p': Proc, evicted: string, key: string)
    requires IsRun(config, run) && i < |run| && t in run[i].tasks && run[i].tasks[t].Insert?
    requires Exec(config, run[i], t, run[i].tasks[t], x, p') && evicted in run[i].cache && evicted !in x.cache
    requires key in run[i].cache && Expired(run[i].cache[key], run[i].clock.now)
    ensures Expired(run[i].cache[evicted], run[i].clock.now)
  {
    EveryRunIsSafe(config, run, i);
    var cache, now := run[i].cache, run[i].clock.now;
    assert FromPut(config, run[i].puts, key, cache[key].record);
    assert FromPut(config, run[i].puts, evicted, cache[evicted].record);
    ExpiredIff(cache[key], now);
    ExpiredIff(cache[evicted], now);
    OnlyTheOldestIsEvicted(config, run[i], run[i].tasks[t], x, p', evicted);
  }

  lemma OnlyTheOldestIsEvicted(config: Config, w: World, p: Proc, w': World, p': Proc, evicted: string)
    requires p.Insert? && PutStep(config, w, p, w', p') && evicted in w.cache && evicted !in w'.cache
    ensures IsOldest(w.cache, evicted) && |w.cache| >= config.capacity && p.job.key !in w.cache
  {
  }
}
