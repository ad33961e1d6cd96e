/** When a completed put is found again, with any interleaving of everything else. Its entry and its body can be taken
    away by a task that looked at the map before the put, so that is what must not be under way. */
module CacheFoundAgain {
  import opened Wrappers
  import opened CacheTypes
  import opened CacheFacts
  import opened CacheSpec
  import opened CacheTasks
  import opened CacheTaskSafety
  import opened CacheTaskCapacity
  import opened CacheUndisturbed

  /** What a put leaves behind, and what a lookup makes of it. */
  datatype Target = Target(key: string, path: FilePath, meta: Metadata, raw: Bytes, hit: Lookup)

  function TargetOf(config: Config, job: PutRecord, createdAt: int): Target {
    var record := RecordOf(config, job);
    Target(job.key, BodyPath(config, job.key), Metadata(record, createdAt), job.raw,
      Hit(record.headers, record.status, job.body, record.originalEncoding))
  }

  predicate IsTarget(config: Config, g: Target) {
    var record := g.meta.record;
    && g.path == BodyPath(config, g.key) == record.bodyPath && Decode(config.codec, g.raw).Some?
    && g.hit == Hit(record.headers, record.status, Decode(config.codec, g.raw).value, record.originalEncoding)
  }

  /** The entry is in the map and its body in the file. */
  predicate Serves(w: World, g: Target) {
    && g.key in w.cache && w.cache[g.key] == g.meta
    && g.path in w.files && w.files[g.path] == g.raw
  }

  // ---------- Who takes it away ----------

  /** The step of a task to `w'` removes the entry, deletes the body, or evicts the entry. */
  predicate Takes(p: Proc, w': World, g: Target) {
    match p
    case RemoveKey(key, _) => key == g.key && g.key !in w'.cache
    case Delete(path, _) => path == g.path && g.path !in w'.files
    case Insert(_, _) => g.key !in w'.cache
    case _ => false
  }

  ghost predicate Taken(w: World, w': World, g: Target) {
    exists t :: t in w.tasks && Takes(w.tasks[t], w', g)
  }

  lemma TaskServesIff(config: Config, w: World, t: nat, x: World, p': Proc, w': World, g: Target)
    requires Running(config, w) && OwnChecksum(config, w.puts, g.key) && g.path == BodyPath(config, g.key)
    requires After(w, t, x, p', w') && Exec(config, w, t, w.tasks[t], x, p')
    requires !Renamed(w, t, g.key) && !Renamed(w', t, g.key)
    ensures Serves(w', g) ==> Serves(w, g)
    ensures Serves(w, g) && !Takes(w.tasks[t], w', g) ==> Serves(w', g)
  {
    hide Running, Boots, BodyPath, Exec;
    var p := w.tasks[t];
    ServedStep(config, w, t, x, p');
    if Puts(p) && p.job.key == g.key {
      OwnPutServesStill(config, w, t, p, x, p', g);
    } else {
      OthersServeUnlessTaken(config, w, t, p, x, p', g);
    }
  }

  lemma OwnPutServesStill(config: Config, w: World, t: nat, p: Proc, x: World, p': Proc, g: Target)
    requires Puts(p) && p.job.key == g.key && Exec(config, w, t, p, x, p') && g.path == BodyPath(config, g.key)
    requires !p.Insert? && (p'.Insert? ==> p'.job.key != g.key)
    ensures Serves(x, g) <==> Serves(w, g)
  {
    hide BodyPath, Exec, PutStep;
    PutsByPutStep(config, w, t, p, x, p');
    PutKeepsItsJob(config, w, p, x, p');
    OwnPutBegins(config, w, p, x, p');
  }

  lemma OthersServeUnlessTaken(config: Config, w: World, t: nat, p: Proc, x: World, p': Proc, g: Target)
    requires Exec(config, w, t, p, x, p') && !Boots(p) && g.path == BodyPath(config, g.key)
    requires Puts(p) ==> config.crc(p.job.key) != config.crc(g.key)
    ensures Serves(x, g) ==> Serves(w, g)
    ensures Serves(w, g) && !Takes(p, x, g) ==> Serves(x, g)
  {
    hide BodyPath, Exec, Boots;
    OthersOnlyTakeAway(config, w, t, p, x, p', g.key);
    StaysUnlessTaken(config, w, t, p, x, p', g);
  }

  /** A put that has not renamed its body changes neither the map nor the body file. */
  lemma OwnPutBegins(config: Config, w: World, p: Proc, w': World, p': Proc)
    requires (p.WriteTemp? || p.RenameTemp?) && PutStep(config, w, p, w', p') && !p'.Insert?
    ensures w'.cache == w.cache
    ensures var path := BodyPath(config, p.job.key);
      (path in w'.files <==> path in w.files) && (path in w.files ==> w'.files[path] == w.files[path])
  {
    BodyPathIsAShardBin(config, p.job.key);
    hide BodyPath;
  }

  lemma StaysUnlessTaken(config: Config, w: World, t: nat, p: Proc, w': World, p': Proc, g: Target)
    requires Exec(config, w, t, p, w', p') && !Boots(p) && g.path == BodyPath(config, g.key)
    requires Puts(p) ==> config.crc(p.job.key) != config.crc(g.key)
    ensures Serves(w, g) && !Takes(p, w', g) ==> Serves(w', g)
  {
    hide BodyPath, PutStep, Boots;
    if Quiet(p) {
      QuietKeepsData(config, w, t, p, w', p');
    } else if Puts(p) {
      OtherPutServesUnlessTaken(config, w, p, w', p', g);
    } else {
      RemovalServesUnlessTaken(config, w, t, p, w', p', g);
    }
  }

  lemma OtherPutServesUnlessTaken(config: Config, w: World, p: Proc, w': World, p': Proc, g: Target)
    requires Puts(p) && PutStep(config, w, p, w', p') && g.path == BodyPath(config, g.key)
    requires config.crc(p.job.key) != config.crc(g.key)
    ensures Serves(w, g) && !Takes(p, w', g) ==> Serves(w', g)
  {
    hide BodyPath, RecordOf, DeleteIfThere, Persist, StoreAfterPut;
    OtherPathsDiffer(config, p.job.key, g.key);
  }

  lemma RemovalServesUnlessTaken(config: Config, w: World, t: nat, p: Proc, w': World, p': Proc, g: Target)
    requires !Quiet(p) && !Boots(p) && !Puts(p) && Exec(config, w, t, p, w', p')
    ensures Serves(w, g) && !Takes(p, w', g) ==> Serves(w', g)
  {
    hide WriteEntries;
  }

  lemma StepServesIff(config: Config, w: World, w': World, g: Target)
    requires Running(config, w) && w'.serving && WorldStep(config, w, w')
    requires OwnChecksum(config, w.puts, g.key) && g.path == BodyPath(config, g.key)
    requires forall t :: !Renamed(w, t, g.key) && !Renamed(w', t, g.key)
    ensures Serves(w', g) <==> Serves(w, g) && !Taken(w, w', g)
  {
    hide Exec, Running, BodyPath;
    if t :| TaskStep(config, w, t, w') {
      var x, p' :| Exec(config, w, t, w.tasks[t], x, p') && w' == x.(tasks := w.tasks[t := p']);
      ServedStep(config, w, t, x, p');
      TaskServesIff(config, w, t, x, p', w', g);
    } else {
      assert w'.cache == w.cache && w'.files == w.files;
    }
  }

  /** Over a stretch of a run in which the process serves and no other put of the key gets as far as its file. */
  ghost predicate NoOtherPut(run: seq<World>, i: nat, j: nat, key: string)
    requires i <= j < |run|
  {
    forall k :: i <= k <= j ==> run[k].serving && forall t :: !Renamed(run[k], t, key)
  }

  /** What a put has left is still served exactly if nobody has taken it. */
  lemma {:induction false} ServedIffNotTaken(config: Config, run: seq<World>, i: nat, j: nat, g: Target)
    requires IsRun(config, run) && i <= j < |run| && NoOtherPut(run, i, j, g.key)
    requires OwnChecksum(config, run[j].puts, g.key) && g.path == BodyPath(config, g.key)
    ensures Serves(run[j], g) <==> Serves(run[i], g) && forall k :: i <= k < j ==> !Taken(run[k], run[k + 1], g)
    decreases j
  {
    hide Serves, Taken, WorldStep, Safe, InBounds, BodyPath;
    if i < j {
      assert StepAt(config, run, j - 1);
      EveryRunIsSafe(config, run, j - 1);
      EveryRunStaysInBounds(config, run, j - 1);
      PutsGrow(config, run[j - 1], run[j]);
      ServedIffNotTaken(config, run, i, j - 1, g);
      StepServesIff(config, run[j - 1], run[j], g);
    }
  }

  // ---------- Tasks that cannot take it away ----------

  /** The task does nothing about the entry and its body that it has not decided with them in view. A `late` task
      gives no other answer for the key than the hit. */
  predicate Unaware(g: Target, late: bool, p: Proc) {
    match p
    case Finished(result) => late && result.Found? && result.key == g.key ==> result.result == g.hit
    case IfExists(path, yes, no) => Unaware(g, late, yes) && (path == g.path || Unaware(g, late, no))
    case Delete(path, next) => path != g.path && Unaware(g, late, next)
    case RemoveKey(key, next) => key != g.key && Unaware(g, late, next)
    case ReadBody(key, meta, _) => key == g.key ==> meta == g.meta
    case StoreLock(next) => Unaware(g, late, next)
    case StoreScan(now, _, _, next) => !Expired(g.meta, now) && Unaware(g, late, next)
    case WriteMeta(_, next) => Unaware(g, late, next)
    case RenameMeta(next) => Unaware(g, late, next)
    case CleanStart(_, next) => Unaware(g, late, next)
    case CleanPaths(_, next) => Unaware(g, late, next)
    case CleanRead(_, valid, next) => g.path in valid && Unaware(g, late, next)
    case CleanLoop(_, valid, _, _, _, next) => g.path in valid && Unaware(g, late, next)
    case ScanDir(_, valid, _, next) => g.path in valid && Unaware(g, late, next)
    case ScanFiles(_, valid, _, next) => g.path in valid && Unaware(g, late, next)
    case OrphanDirs(valid, _) => g.path in valid
    case _ => true
  }

  /** The bodies of other entries are other files. */
  predicate BodiesApart(w: World, g: Target) {
    forall k :: k in w.cache && k != g.key ==> w.cache[k].record.bodyPath != g.path
  }

  lemma MissIsUnaware(config: Config, key: string, withBucket: bool, g: Target, late: bool)
    requires late ==> key != g.key
    ensures Unaware(g, late, MissAfter(config, key, withBucket))
  {
    var done := Finished(Found(key, Miss));
    assert Unaware(g, late, CleanStart(Some(ShardId(config, key)), done));
  }

  lemma DeleteIfThereIsUnaware(path: FilePath, next: Proc, g: Target, late: bool)
    requires path != g.path && Unaware(g, late, next)
    ensures Unaware(g, late, DeleteIfThere(path, next))
  {
    assert Unaware(g, late, Delete(path, next));
  }

  lemma LookUpIsUnaware(config: Config, w: World, p: Proc, w': World, p': Proc, g: Target, late: bool)
    requires p.LookUp? && LookUpStep(config, w, p, w', p') && Serves(w, g) && BodiesApart(w, g)
    requires IsTarget(config, g) && !Expired(g.meta, w.clock.now)
    requires config.crc(p.key) == config.crc(g.key) ==> p.key == g.key
    ensures Unaware(g, late, p')
  {
    hide Unaware, MissAfter, BodyPath, Expired, DeleteIfThere, Decode;
    var miss := MissAfter(config, p.key, p.withBucket);
    if p.key == g.key {
      OwnLookUpIsUnaware(p.withBucket, miss, g, late);
    } else {
      MissIsUnaware(config, p.key, p.withBucket, g, late);
      if p.key in w.cache {
        OtherFoundIsUnaware(p.key, w.cache[p.key], p.withBucket, miss, g, late);
      } else {
        SamePathIffSameCrc(config, p.key, g.key);
        OtherUnknownIsUnaware(p.key, BodyPath(config, p.key), miss, g, late);
      }
    }
  }

  lemma OwnLookUpIsUnaware(withBucket: bool, miss: Proc, g: Target, late: bool)
    ensures Unaware(g, late, IfExists(g.path, ReadBody(g.key, g.meta, withBucket), RemoveKey(g.key, miss)))
  {
    assert Unaware(g, late, ReadBody(g.key, g.meta, withBucket));
  }

  lemma OtherFoundIsUnaware(key: string, meta: Metadata, withBucket: bool, miss: Proc, g: Target, late: bool)
    requires key != g.key && meta.record.bodyPath != g.path && Unaware(g, late, miss)
    ensures Unaware(g, late, RemoveKey(key, DeleteIfThere(meta.record.bodyPath, miss)))
    ensures Unaware(g, late, IfExists(meta.record.bodyPath, ReadBody(key, meta, withBucket), RemoveKey(key, miss)))
  {
    DeleteIfThereIsUnaware(meta.record.bodyPath, miss, g, late);
    assert Unaware(g, late, RemoveKey(key, miss)) && Unaware(g, late, ReadBody(key, meta, withBucket));
  }

  lemma OtherUnknownIsUnaware(key: string, path: FilePath, miss: Proc, g: Target, late: bool)
    requires key != g.key && path != g.path && Unaware(g, late, miss)
    ensures Unaware(g, late, IfExists(path, Delete(path, miss), Finished(Found(key, Miss))))
  {
    assert Unaware(g, late, Delete(path, miss)) && Unaware(g, late, Finished(Found(key, Miss)));
  }

  /** A lookup of the key that has failed to read the body. */
  predicate FailsToRead(p: Proc, p': Proc, key: string) {
    p.ReadBody? && p.key == key && p'.RemoveKey?
  }

  lemma ReadBodyIsUnaware(config: Config, w: World, p: Proc, w': World, p': Proc, g: Target, late: bool)
    requires p.ReadBody? && ReadBodyStep(config, w, p, w', p') && Serves(w, g) && Unaware(g, late, p)
    requires IsTarget(config, g) && !FailsToRead(p, p', g.key)
    requires p.key != g.key ==> p.meta.record.bodyPath != g.path
    ensures Unaware(g, late, p')
  {
    hide MissAfter, Decode, BodyPath;
    if p.key != g.key {
      var path, miss := p.meta.record.bodyPath, MissAfter(config, p.key, p.withBucket);
      MissIsUnaware(config, p.key, p.withBucket, g, late);
      assert Unaware(g, late, Delete(path, miss));
      assert Unaware(g, late, RemoveKey(p.key, miss)) && Unaware(g, late, RemoveKey(p.key, Delete(path, miss)));
    }
  }

  lemma WriteIsUnaware(config: Config, w: World, p: Proc, w': World, p': Proc, g: Target, late: bool)
    requires (p.WriteTemp? || p.RenameTemp?) && PutStep(config, w, p, w', p') && g.path.ext == BIN
    ensures Unaware(g, late, p')
  {
    hide BodyPath;
    if p.RenameTemp? {
      assert Unaware(g, late, Finished(PutEnded(Failed)));
      assert Unaware(g, late, Delete(TempOf(BodyPath(config, p.job.key)), Finished(PutEnded(Failed))));
    }
  }

  lemma InsertIsUnaware(config: Config, w: World, p: Proc, w': World, p': Proc, g: Target, late: bool)
    requires p.Insert? && PutStep(config, w, p, w', p')
    requires BodiesApart(w, g) && g.key in w'.cache
    ensures Unaware(g, late, p')
  {
    hide Persist, DeleteIfThere, StoreAfterPut, Unaware, RecordOf, BodyPath;
    var after := StoreAfterPut(config, p.job);
    StoreAfterPutIsUnaware(config, p.job, g, late);
    if MustEvict(config, w.cache, p.job.key) {
      var rest := Persist(config, p.job.key, p.job.withBucket, after);
      forall victim | victim in w.cache && victim != g.key
        ensures Unaware(g, late, DeleteIfThere(w.cache[victim].record.bodyPath, rest))
      {
        DeleteIfThereIsUnaware(w.cache[victim].record.bodyPath, rest, g, late);
      }
    }
  }

  lemma StoreAfterPutIsUnaware(config: Config, job: PutRecord, g: Target, late: bool)
    ensures Unaware(g, late, StoreAfterPut(config, job))
    ensures Unaware(g, late, Persist(config, job.key, job.withBucket, StoreAfterPut(config, job)))
  {
    var after := StoreAfterPut(config, job);
    assert Unaware(g, late, Finished(PutEnded(Stored)));
    assert Unaware(g, late, after);
    assert Unaware(g, late, CleanStart(Some(ShardId(config, job.key)), after));
  }

  lemma StoreIsUnaware(w: World, t: nat, p: Proc, w': World, p': Proc, g: Target, late: bool)
    requires (p.StoreLock? || p.StoreScan? || p.WriteMeta? || p.RenameMeta?) && StoreStep(w, t, p, w', p')
    requires Unaware(g, late, p) && Serves(w, g) && BodiesApart(w, g) && !Expired(g.meta, w.clock.now)
    ensures Unaware(g, late, p')
  {
    hide Expired, DeleteIfThere, Scanned, BodiesApart, Serves, WriteEntries;
    if p.StoreScan? && p.todo != {} {
      var k :| k in p.todo && k in w.cache && p' == Scanned(p, k, w.cache[k]);
      ScannedIsUnaware(w, p, k, g, late);
    }
  }

  lemma ScannedIsUnaware(w: World, p: Proc, k: string, g: Target, late: bool)
    requires p.StoreScan? && Unaware(g, late, p) && Serves(w, g) && BodiesApart(w, g) && k in w.cache
    ensures Unaware(g, late, Scanned(p, k, w.cache[k]))
  {
    hide Expired, DeleteIfThere;
    forall listed ensures Unaware(g, late, StoreScan(p.now, p.todo - {k}, listed, p.next)) {
    }
    if Expired(w.cache[k], p.now) {
      DeleteIfThereIsUnaware(
        w.cache[k].record.bodyPath, StoreScan(p.now, p.todo - {k}, p.listed, p.next), g, late);
    }
  }

  lemma CleanIsUnaware(config: Config, w: World, p: Proc, w': World, p': Proc, g: Target, late: bool)
    requires (p.CleanStart? || p.CleanPaths? || p.CleanRead?) && CleanStep(config, w, p, w', p')
    requires Unaware(g, late, p) && g.path in Paths(w.cache)
    ensures Unaware(g, late, p')
  {
    hide ReadEntries, Paths, Expired, Readable;
  }

  lemma CleanLoopIsUnaware(config: Config, w: World, p: Proc, w': World, p': Proc, g: Target, late: bool)
    requires p.CleanLoop? && CleanStep(config, w, p, w', p') && Unaware(g, late, p)
    ensures Unaware(g, late, p')
  {
    hide Expired, DeleteIfThere, ShardDir, ShardId, Unaware;
    CleanedIsUnaware(p, g, late);
    if p.left != [] {
      var path := p.left[0].meta.record.bodyPath;
      var keep := CleanLoop(p.shard, p.valid, p.now, p.left[1..], p.kept + [p.left[0]], p.next);
      var drop := CleanLoop(p.shard, p.valid, p.now, p.left[1..], p.kept, p.next);
      EitherIsUnaware(path, keep, drop, g, late);
      if path !in p.valid {
        DeleteIfThereIsUnaware(path, drop, g, late);
      }
    }
  }

  lemma CleanedIsUnaware(p: Proc, g: Target, late: bool)
    requires p.CleanLoop? && Unaware(g, late, p)
    ensures g.path in p.valid && Unaware(g, late, WriteMeta(p.kept, p.next))
    ensures forall dir :: Unaware(g, late, ScanDir(dir, p.valid, false, WriteMeta(p.kept, p.next)))
    ensures forall left, kept :: Unaware(g, late, CleanLoop(p.shard, p.valid, p.now, left, kept, p.next))
  {
  }

  lemma EitherIsUnaware(path: FilePath, yes: Proc, no: Proc, g: Target, late: bool)
    requires Unaware(g, late, yes) && Unaware(g, late, no)
    ensures Unaware(g, late, IfExists(path, yes, no))
  {
  }

  lemma ScanIsUnaware(w: World, p: Proc, w': World, p': Proc, g: Target, late: bool)
    requires (p.ScanDir? || p.ScanFiles?) && SweepStep(w, p, w', p') && Unaware(g, late, p) && g.path.ext == BIN
    ensures Unaware(g, late, p')
  {
    if p.ScanFiles? && p.files != {} {
      forall f ensures Unaware(g, late, ScanFiles(p.files - {f}, p.valid, p.sweepTemps, p.next)) {
      }
    }
  }

  lemma OrphanIsUnaware(w: World, p: Proc, w': World, p': Proc, g: Target, late: bool)
    requires (p.OrphanStart? || p.OrphanDirs?) && SweepStep(w, p, w', p')
    requires Unaware(g, late, p) && g.path in Paths(w.cache)
    ensures Unaware(g, late, p')
  {
    hide Paths, IsShardDir;
    if p.OrphanDirs? && p.dirs != {} {
      forall dir ensures Unaware(g, late, OrphanDirs(p.valid, p.dirs - {dir})) {
      }
    }
  }

  lemma BodiesAreApart(config: Config, w: World, g: Target)
    requires MapFromPuts(config, w.puts, w.cache) && OwnChecksum(config, w.puts, g.key)
    requires g.path == BodyPath(config, g.key)
    ensures BodiesApart(w, g)
  {
    hide BodyPath;
    forall k | k in w.cache && k != g.key ensures w.cache[k].record.bodyPath != g.path {
      PutBodiesAreApart(config, w.puts, k, w.cache[k].record, g);
    }
  }

  lemma PutBodiesAreApart(config: Config, puts: set<PutRecord>, key: string, record: Record, g: Target)
    requires FromPut(config, puts, key, record) && OwnChecksum(config, puts, g.key) && key != g.key
    requires g.path == BodyPath(config, g.key)
    ensures record.bodyPath != g.path
  {
    SamePathIffSameCrc(config, key, g.key);
  }

  /** What the step of a task must leave alone: it looks up no other key with the same checksum, fails to read no
      body of the key, and does not evict the entry. */
  predicate LeavesAlone(config: Config, p: Proc, x: World, p': Proc, key: string) {
    && (p.LookUp? && config.crc(p.key) == config.crc(key) ==> p.key == key)
    && !FailsToRead(p, p', key) && (p.Insert? ==> key in x.cache)
  }

  predicate Requests(p: Proc) {
    p.LookUp? || p.ReadBody? || Puts(p)
  }

  lemma RequestStaysUnaware(config: Config, w: World, t: nat, p: Proc, x: World, p': Proc, g: Target, late: bool)
    requires Requests(p) && Exec(config, w, t, p, x, p') && LeavesAlone(config, p, x, p', g.key)
    requires Serves(w, g) && Unaware(g, late, p) && BodiesApart(w, g) && g.path.ext == BIN
    requires IsTarget(config, g) && !Expired(g.meta, w.clock.now)
    requires p.ReadBody? && p.key != g.key ==> p.meta.record.bodyPath != g.path
    ensures Unaware(g, late, p')
  {
    hide LookUpStep, ReadBodyStep, PutStep, Expired, BodyPath, Decode, IsTarget, Serves, BodiesApart;
    if p.LookUp? { LookUpIsUnaware(config, w, p, x, p', g, late); }
    else if p.ReadBody? { ReadBodyIsUnaware(config, w, p, x, p', g, late); }
    else if p.Insert? { InsertIsUnaware(config, w, p, x, p', g, late); }
    else { WriteIsUnaware(config, w, p, x, p', g, late); }
  }

  lemma PassStaysUnaware(config: Config, w: World, t: nat, p: Proc, x: World, p': Proc, g: Target, late: bool)
    requires !Requests(p) && !Boots(p) && Exec(config, w, t, p, x, p')
    requires Serves(w, g) && Unaware(g, late, p) && BodiesApart(w, g) && g.path.ext == BIN
    requires g.meta.record.bodyPath == g.path && !Expired(g.meta, w.clock.now)
    ensures Unaware(g, late, p')
  {
    hide StoreStep, CleanStep, SweepStep, Expired, BodiesApart, Paths, Unaware, Serves, Exec;
    ServedIsValid(w, g);
    FinishedIsOver(config, w, t, p, x, p');
    if p.IfExists? || p.Delete? || p.RemoveKey? {
      RemovalStaysUnaware(config, w, t, p, x, p', g, late);
    } else if p.StoreLock? || p.StoreScan? || p.WriteMeta? || p.RenameMeta? {
      StoresByStoreStep(config, w, t, p, x, p');
      StoreIsUnaware(w, t, p, x, p', g, late);
    } else if p.CleanStart? || p.CleanPaths? || p.CleanRead? || p.CleanLoop? {
      CleansByCleanStep(config, w, t, p, x, p');
      if p.CleanLoop? { CleanLoopIsUnaware(config, w, p, x, p', g, late); }
      else { CleanIsUnaware(config, w, p, x, p', g, late); }
    } else {
      SweepsBySweepStep(config, w, t, p, x, p');
      if p.ScanDir? || p.ScanFiles? { ScanIsUnaware(w, p, x, p', g, late); }
      else { OrphanIsUnaware(w, p, x, p', g, late); }
    }
  }

  lemma FinishedIsOver(config: Config, w: World, t: nat, p: Proc, x: World, p': Proc)
    requires Exec(config, w, t, p, x, p')
    ensures !p.Finished?
  {
  }

  lemma StoresByStoreStep(config: Config, w: World, t: nat, p: Proc, x: World, p': Proc)
    requires (p.StoreLock? || p.StoreScan? || p.WriteMeta? || p.RenameMeta?) && Exec(config, w, t, p, x, p')
    ensures StoreStep(w, t, p, x, p')
  {
    hide StoreStep;
  }

  lemma CleansByCleanStep(config: Config, w: World, t: nat, p: Proc, x: World, p': Proc)
    requires (p.CleanStart? || p.CleanPaths? || p.CleanRead? || p.CleanLoop?) && Exec(config, w, t, p, x, p')
    ensures CleanStep(config, w, p, x, p')
  {
    hide CleanStep;
  }

  lemma SweepsBySweepStep(config: Config, w: World, t: nat, p: Proc, x: World, p': Proc)
    requires (p.ScanDir? || p.ScanFiles? || p.OrphanStart? || p.OrphanDirs?) && Exec(config, w, t, p, x, p')
    ensures SweepStep(w, p, x, p')
  {
    hide SweepStep;
  }

  lemma ServedIsValid(w: World, g: Target)
    requires Serves(w, g) && g.meta.record.bodyPath == g.path
    ensures g.path in w.files && g.path in Paths(w.cache)
  {
  }

  lemma RemovalStaysUnaware(config: Config, w: World, t: nat, p: Proc, x: World, p': Proc, g: Target, late: bool)
    requires (p.IfExists? || p.Delete? || p.RemoveKey?) && Exec(config, w, t, p, x, p')
    requires Unaware(g, late, p) && g.path in w.files
    ensures Unaware(g, late, p')
  {
  }

  lemma UnawareTakesNothing(p: Proc, x: World, g: Target, late: bool)
    requires Unaware(g, late, p) && (p.Insert? ==> g.key in x.cache)
    ensures !Takes(p, x, g)
  {
  }

  lemma ReadsOwnBody(config: Config, puts: set<PutRecord>, p: Proc, g: Target)
    requires SafeProc(config, puts, p) && OwnChecksum(config, puts, g.key) && g.path == BodyPath(config, g.key)
    requires p.ReadBody? && p.key != g.key
    ensures p.meta.record.bodyPath != g.path
  {
    PutBodiesAreApart(config, puts, p.key, p.meta.record, g);
  }

  lemma TaskStaysUnaware(config: Config, w: World, t: nat, x: World, p': Proc, g: Target, late: bool)
    requires Running(config, w) && OwnChecksum(config, w.puts, g.key) && IsTarget(config, g)
    requires t in w.tasks && Exec(config, w, t, w.tasks[t], x, p') && LeavesAlone(config, w.tasks[t], x, p', g.key)
    requires !Renamed(w, t, g.key) && !Expired(g.meta, w.clock.now)
    requires Serves(w, g) && Unaware(g, late, w.tasks[t])
    ensures Unaware(g, late, p') && !Takes(w.tasks[t], x, g)
  {
    hide Exec, InBounds, Boots, Expired, BodyPath, Decode, Unaware, Takes, SafeProc;
    var p := w.tasks[t];
    ServedStep(config, w, t, x, p');
    BodiesAreApart(config, w, g);
    BodyPathIsAShardBin(config, g.key);
    UnawareTakesNothing(p, x, g, late);
    if Requests(p) {
      if p.ReadBody? && p.key != g.key {
        ReadsOwnBody(config, w.puts, p, g);
      }
      RequestStaysUnaware(config, w, t, p, x, p', g, late);
    } else {
      PassStaysUnaware(config, w, t, p, x, p', g, late);
    }
  }

  // ---------- Runs ----------

  /** No task that is under way can take it away; those that were not there before answer for the key with it. */
  ghost predicate AllUnaware(w: World, g: Target, known: set<nat>) {
    forall t :: t in w.tasks ==> Unaware(g, t !in known, w.tasks[t])
  }

  /** The process serves, the ttl has not passed, no other put of the key has renamed its body, and no other key with
      the same checksum is looked up. */
  ghost predicate Spared(config: Config, w: World, g: Target) {
    && w.serving && !Expired(g.meta, w.clock.now) && (forall t :: !Renamed(w, t, g.key))
    && forall t :: t in w.tasks && w.tasks[t].LookUp? && config.crc(w.tasks[t].key) == config.crc(g.key) ==>
         w.tasks[t].key == g.key
  }

  /** In this step no lookup of the key fails to read its body, and no insertion evicts it. */
  ghost predicate SparedInStep(w: World, w': World, key: string) {
    forall t :: t in w.tasks && t in w'.tasks && w'.tasks[t] != w.tasks[t] ==>
      !FailsToRead(w.tasks[t], w'.tasks[t], key) && (w.tasks[t].Insert? ==> key in w'.cache)
  }

  ghost predicate SparedStretch(config: Config, run: seq<World>, i: nat, j: nat, g: Target)
    requires i <= j < |run|
  {
    && (forall k :: i <= k <= j ==> Spared(config, run[k], g))
    && (forall k :: i <= k < j ==> SparedInStep(run[k], run[k + 1], g.key))
  }

  lemma TaskStepStaysUnaware(
    config: Config, w: World, t: nat, x: World, p': Proc, w': World, g: Target, known: set<nat>)
    requires Running(config, w) && After(w, t, x, p', w') && Exec(config, w, t, w.tasks[t], x, p')
    requires OwnChecksum(config, w.puts, g.key) && IsTarget(config, g)
    requires Spared(config, w, g) && Spared(config, w', g) && SparedInStep(w, w', g.key)
    requires Serves(w, g) && AllUnaware(w, g, known)
    ensures Serves(w', g) && AllUnaware(w', g, known)
  {
    hide Running, Unaware, BodyPath, Expired, Decode, Serves, IsTarget;
    var p := w.tasks[t];
    StepIsSpared(config, w, t, x, p', w', g);
    hide Exec, SparedInStep;
    TaskStaysUnaware(config, w, t, x, p', g, t !in known);
    assert g.path == BodyPath(config, g.key) by { TargetHasItsPath(config, g); }
    TaskServesIff(config, w, t, x, p', w', g);
  }

  lemma TargetHasItsPath(config: Config, g: Target)
    requires IsTarget(config, g)
    ensures g.path == BodyPath(config, g.key)
  {
  }

  lemma StepIsSpared(config: Config, w: World, t: nat, x: World, p': Proc, w': World, g: Target)
    requires After(w, t, x, p', w') && Exec(config, w, t, w.tasks[t], x, p')
    requires Spared(config, w, g) && SparedInStep(w, w', g.key)
    ensures LeavesAlone(config, w.tasks[t], x, p', g.key)
  {
    hide BodyPath, Expired;
    var p := w.tasks[t];
    if Puts(p) {
      PutsByPutStep(config, w, t, p, x, p');
      PutKeepsItsJob(config, w, p, x, p');
    }
    hide Exec;
    assert p.Insert? ==> p' != p;
  }

  lemma StepStaysUnaware(config: Config, w: World, w': World, g: Target, known: set<nat>)
    requires Running(config, w) && WorldStep(config, w, w') && OwnChecksum(config, w.puts, g.key)
    requires IsTarget(config, g) && Spared(config, w, g) && Spared(config, w', g) && SparedInStep(w, w', g.key)
    requires Serves(w, g) && AllUnaware(w, g, known) && known <= w.tasks.Keys
    ensures Serves(w', g) && AllUnaware(w', g, known) && known <= w'.tasks.Keys
  {
    hide Exec, Running, Unaware, BodyPath, Expired, Decode, IsTarget, SparedInStep, StartStep, Spared;
    if t :| TaskStep(config, w, t, w') {
      var x, p' :| Exec(config, w, t, w.tasks[t], x, p') && w' == x.(tasks := w.tasks[t := p']);
      ServedStep(config, w, t, x, p');
      TaskStepStaysUnaware(config, w, t, x, p', w', g, known);
    } else if t, p :| StartStep(config, w, t, p, w') {
      StartedIsUnaware(config, w, t, p, w', g, known);
    } else if t :| CancelStep(w, t, w') {
      CancelledIsUnaware(w, t, w', g, known);
    } else {
      assert ServeStep(w, w') || TickStep(w, w') by { ServingDoesNotCrash(config, w, w', g); }
    }
  }

  lemma ServingDoesNotCrash(config: Config, w: World, w': World, g: Target)
    requires Spared(config, w', g)
    ensures !CrashStep(config, w, w')
  {
  }

  lemma StartedIsUnaware(config: Config, w: World, t: nat, p: Proc, w': World, g: Target, known: set<nat>)
    requires StartStep(config, w, t, p, w') && Serves(w, g) && AllUnaware(w, g, known) && known <= w.tasks.Keys
    ensures Serves(w', g) && AllUnaware(w', g, known) && known <= w'.tasks.Keys
  {
    assert forall late :: Unaware(g, late, Finished(Swept));
    assert forall late :: Unaware(g, late, CleanStart(None, Finished(Swept)));
    assert Unaware(g, t !in known, p);
    hide Unaware;
  }

  lemma CancelledIsUnaware(w: World, t: nat, w': World, g: Target, known: set<nat>)
    requires CancelStep(w, t, w') && Serves(w, g) && AllUnaware(w, g, known) && known <= w.tasks.Keys
    ensures Serves(w', g) && AllUnaware(w', g, known) && known <= w'.tasks.Keys
  {
    assert Unaware(g, t !in known, Finished(Cancelled));
    hide Unaware;
  }

  /** As long as it is spared, what a put has left stays served, if nobody who is under way can take it away. */
  lemma {:induction false} SparedStaysServed(config: Config, run: seq<World>, i: nat, j: nat, g: Target)
    requires IsRun(config, run) && i <= j < |run| && SparedStretch(config, run, i, j, g)
    requires OwnChecksum(config, run[j].puts, g.key) && IsTarget(config, g)
    requires Serves(run[i], g) && AllUnaware(run[i], g, run[i].tasks.Keys)
    ensures Serves(run[j], g) && AllUnaware(run[j], g, run[i].tasks.Keys)
    ensures run[i].tasks.Keys <= run[j].tasks.Keys
    decreases j
  {
    hide Serves, AllUnaware, WorldStep, Safe, InBounds, IsTarget, Spared, SparedInStep;
    if i < j {
      assert StepAt(config, run, j - 1);
      EveryRunIsSafe(config, run, j - 1);
      EveryRunStaysInBounds(config, run, j - 1);
      PutsGrow(config, run[j - 1], run[j]);
      SparedStaysServed(config, run, i, j - 1, g);
      assert run[j - 1].serving by { SparedServes(config, run[j - 1], g); }
      StepStaysUnaware(config, run[j - 1], run[j], g, run[i].tasks.Keys);
    }
  }

  lemma SparedServes(config: Config, w: World, g: Target)
    requires Spared(config, w, g)
    ensures w.serving
  {
  }

  /** An insertion leaves its entry; if the body is still in its file, the two are served. What the task still has to
      do cannot take them away. */
  lemma InsertionServes(config: Config, w: World, t: nat, job: PutRecord, createdAt: int, x: World, p': Proc)
    requires Running(config, w) && OwnChecksum(config, w.puts, job.key) && t in w.tasks
    requires w.tasks[t] == Insert(job, createdAt) && Exec(config, w, t, w.tasks[t], x, p')
    requires BodyPath(config, job.key) in w.files && w.files[BodyPath(config, job.key)] == job.raw
    ensures var g := TargetOf(config, job, createdAt);
      Serves(x, g) && Unaware(g, false, p')
  {
    hide Running, BodyPath, Exec, PutStep, RecordOf, Unaware;
    var p, g := w.tasks[t], TargetOf(config, job, createdAt);
    PutsByPutStep(config, w, t, p, x, p');
    InsertsItsEntry(config, w, p, x, p');
    assert BodiesApart(w, g) by { SafeBodiesAreApart(config, w, g); }
    InsertIsUnaware(config, w, p, x, p', g, false);
  }

  lemma SafeBodiesAreApart(config: Config, w: World, g: Target)
    requires Running(config, w) && OwnChecksum(config, w.puts, g.key) && g.path == BodyPath(config, g.key)
    ensures BodiesApart(w, g)
  {
    hide InBounds, BodyPath;
    BodiesAreApart(config, w, g);
  }

  /** Every lookup that begins after the put and ends before the stretch does answers with the put. */
  lemma PutIsFoundAgain(
    config: Config, run: seq<World>, i: nat, j: nat, job: PutRecord, createdAt: int, t: nat, result: Lookup)
    requires IsRun(config, run) && i <= j < |run| && Decode(config.codec, job.raw) == Some(job.body)
    requires var g := TargetOf(config, job, createdAt);
      SparedStretch(config, run, i, j, g) && Serves(run[i], g) && AllUnaware(run[i], g, run[i].tasks.Keys)
    requires OwnChecksum(config, run[j].puts, job.key)
    requires t !in run[i].tasks && t in run[j].tasks && run[j].tasks[t] == Finished(Found(job.key, result))
    ensures result.Hit? && result.body == job.body
    ensures result.headers == job.response.headers && result.status == job.response.status
  {
    var g := TargetOf(config, job, createdAt);
    hide SparedStretch, Serves, IsRun, BodyPath, Decode, OwnChecksum;
    SparedStaysServed(config, run, i, j, g);
    assert Unaware(g, true, run[j].tasks[t]);
  }
}
