/** The lock. While a task holds it nobody else changes the map, so that what a `store` lists is the map as it was at
    one moment, in every interleaving. */
module CacheLocking {
  import opened Wrappers
  import opened CacheTypes
  import opened CacheSpec
  import CacheService
  import opened CacheTasks
  import opened CacheAloneEnds

  // ---------- Who needs the lock ----------

  /** These steps look at the map or change it, and do not hold the lock. */
  predicate NeedsLock(p: Proc) {
    p.LookUp? || p.RemoveKey? || p.Insert? || p.StoreLock? || p.CleanPaths? || p.OrphanStart? || p.LoadLock?
  }

  lemma NeedsLockFree(config: Config, w: World, t: nat, p: Proc, w': World, p': Proc)
    requires NeedsLock(p) && Exec(config, w, t, p, w', p')
    ensures w.lock.None?
  {
  }

  /** No other step touches the map, except that of a `load` that holds the lock. */
  lemma OthersLeaveMap(config: Config, w: World, t: nat, p: Proc, w': World, p': Proc)
    requires !NeedsLock(p) && !p.LoadInsert? && Exec(config, w, t, p, w', p')
    ensures w'.cache == w.cache
  {
  }

  // ---------- The shape of a task ----------

  /** The lock is taken and given back by the task itself, and only there. */
  predicate Disciplined(p: Proc)
    decreases p, 0
  {
    match p
    case IfExists(_, yes, no) => Disciplined(yes) && Disciplined(no) && Holds(yes) == Holds(no)
    case Delete(_, next) => Disciplined(next)
    case RemoveKey(_, next) => Outside(next)
    case StoreLock(next) => Outside(next)
    case StoreScan(_, _, _, next) => Outside(next)
    case WriteMeta(_, next) => Outside(next)
    case RenameMeta(next) => Outside(next)
    case CleanStart(_, next) => Outside(next)
    case CleanPaths(_, next) => Outside(next)
    case CleanRead(_, _, next) => Outside(next)
    case CleanLoop(_, _, _, _, _, next) => Outside(next)
    case ScanDir(_, _, _, next) => Outside(next)
    case ScanFiles(_, _, _, next) => Outside(next)
    case _ => true
  }

  predicate Outside(p: Proc)
    decreases p, 1
  {
    Disciplined(p) && !Holds(p)
  }

  /** What a scan has listed so far is right for the map as it is. */
  ghost predicate ListsRight(cache: Cache, p: Proc) {
    match p
    case IfExists(_, yes, no) => ListsRight(cache, yes) && ListsRight(cache, no)
    case Delete(_, next) => ListsRight(cache, next)
    case StoreScan(now, todo, listed, _) => todo <= cache.Keys && ListsUnexpired(listed, cache - todo, now)
    case _ => true
  }

  lemma OutsideListsNothing(cache: Cache, p: Proc)
    requires Outside(p)
    ensures ListsRight(cache, p)
  {
    match p
    case IfExists(_, yes, no) => OutsideListsNothing(cache, yes); OutsideListsNothing(cache, no);
    case Delete(_, next) => OutsideListsNothing(cache, next);
    case _ =>
  }

  /** What one step of task `t` must establish. */
  ghost predicate Keeps(w: World, t: nat, p: Proc, w': World, p': Proc) {
    && Disciplined(p') && (Holds(p') ==> ListsRight(w'.cache, p'))
    && w'.lock == (if Holds(p') then Some(t) else if Holds(p) then None else w.lock)
    && (Holds(p') && !Holds(p) ==> w.lock.None?)
  }

  /** The end of a step that does not hold the lock and does not take it. */
  lemma StaysOutside(w: World, t: nat, p: Proc, w': World, p': Proc)
    requires !Holds(p) && Outside(p') && w'.lock == w.lock
    ensures Keeps(w, t, p, w', p')
  {
  }

  // ---------- Steps ----------

  lemma MissIsOutside(config: Config, key: string, withBucket: bool)
    ensures Outside(MissAfter(config, key, withBucket))
  {
    var done := Finished(Found(key, Miss));
    var clean := CleanStart(Some(ShardId(config, key)), done);
    assert !Holds(done) && !Holds(clean);
    assert Outside(done) && Outside(clean);
  }

  lemma DeleteIfThereIsDisciplined(path: FilePath, next: Proc)
    requires Disciplined(next)
    ensures Disciplined(DeleteIfThere(path, next)) && Holds(DeleteIfThere(path, next)) == Holds(next)
  {
    assert Disciplined(Delete(path, next)) && Holds(Delete(path, next)) == Holds(next);
  }

  lemma LookUpKeeps(config: Config, w: World, t: nat, p: Proc, w': World, p': Proc)
    requires p.LookUp? && LookUpStep(config, w, p, w', p')
    ensures Keeps(w, t, p, w', p')
  {
    hide MissAfter, Expired, BodyPath, DeleteIfThere;
    var miss := MissAfter(config, p.key, p.withBucket);
    MissIsOutside(config, p.key, p.withBucket);
    if p.key in w.cache {
      var meta := w.cache[p.key];
      DeleteIfThereIsDisciplined(meta.record.bodyPath, miss);
      assert Outside(RemoveKey(p.key, miss)) && Outside(ReadBody(p.key, meta, p.withBucket));
    } else {
      assert Outside(Delete(BodyPath(config, p.key), miss)) && Outside(Finished(Found(p.key, Miss)));
    }
    StaysOutside(w, t, p, w', p');
  }

  lemma ReadBodyKeeps(config: Config, w: World, t: nat, p: Proc, w': World, p': Proc)
    requires p.ReadBody? && ReadBodyStep(config, w, p, w', p')
    ensures Keeps(w, t, p, w', p')
  {
    hide MissAfter, Decode;
    MissIsOutside(config, p.key, p.withBucket);
    var miss := MissAfter(config, p.key, p.withBucket);
    assert Outside(Delete(p.meta.record.bodyPath, miss));
    StaysOutside(w, t, p, w', p');
  }

  lemma WriteKeeps(config: Config, w: World, t: nat, p: Proc, w': World, p': Proc)
    requires (p.WriteTemp? || p.RenameTemp?) && PutStep(config, w, p, w', p')
    ensures Keeps(w, t, p, w', p')
  {
    hide BodyPath;
    assert Outside(Finished(PutEnded(Failed)));
    StaysOutside(w, t, p, w', p');
  }

  lemma AfterPutIsOutside(config: Config, job: PutRecord)
    ensures var after := StoreAfterPut(config, job);
      Outside(after) && Outside(Persist(config, job.key, job.withBucket, after))
  {
    var done, after := Finished(PutEnded(Stored)), StoreAfterPut(config, job);
    assert Outside(done) && Outside(after);
    assert Outside(CleanStart(Some(ShardId(config, job.key)), after));
  }

  lemma InsertKeeps(config: Config, w: World, t: nat, p: Proc, w': World, p': Proc)
    requires p.Insert? && PutStep(config, w, p, w', p')
    ensures Keeps(w, t, p, w', p')
  {
    AfterPutIsOutside(config, p.job);
    hide StoreAfterPut, Persist, DeleteIfThere, RecordOf, BodyPath;
    var rest := Persist(config, p.job.key, p.job.withBucket, StoreAfterPut(config, p.job));
    forall path ensures Outside(DeleteIfThere(path, rest)) {
      DeleteIfThereIsDisciplined(path, rest);
    }
    StaysOutside(w, t, p, w', p');
  }

  lemma StoreKeeps(w: World, t: nat, p: Proc, w': World, p': Proc)
    requires (p.StoreLock? || p.WriteMeta? || p.RenameMeta?) && Disciplined(p) && StoreStep(w, t, p, w', p')
    ensures Keeps(w, t, p, w', p')
  {
    hide WriteEntries;
    if p.StoreLock? {
      assert w.cache - w.cache.Keys == map[];
    } else {
      StaysOutside(w, t, p, w', p');
    }
  }

  lemma StoreScanKeeps(w: World, t: nat, p: Proc, w': World, p': Proc)
    requires p.StoreScan? && Disciplined(p) && StoreStep(w, t, p, w', p') && ListsRight(w.cache, p)
    requires w.lock == Some(t)
    ensures Keeps(w, t, p, w', p')
  {
    hide Scanned;
    if p.todo != {} {
      var k :| k in p.todo && k in w.cache && p' == Scanned(p, k, w.cache[k]);
      ScannedKeeps(w.cache, p, k);
    }
  }

  lemma ScannedKeeps(cache: Cache, p: Proc, k: string)
    requires p.StoreScan? && Disciplined(p) && ListsRight(cache, p) && k in p.todo
    ensures var p' := Scanned(p, k, cache[k]); Disciplined(p') && Holds(p') && ListsRight(cache, p')
  {
    hide Expired, ListsUnexpired;
    var meta, seen := cache[k], cache - p.todo;
    assert cache - (p.todo - {k}) == seen[k := meta];
    if Expired(meta, p.now) {
      CacheService.ExpiredEntrySeen(p.listed, seen, k, meta, map[], p.now);
      var scan := StoreScan(p.now, p.todo - {k}, p.listed, p.next);
      assert Disciplined(scan) && Holds(scan) && ListsRight(cache, scan);
      var gone := Delete(meta.record.bodyPath, scan);
      assert Disciplined(gone) && Holds(gone) && ListsRight(cache, gone);
    } else {
      CacheService.UnexpiredEntrySeen(p.listed, seen, k, meta, map[], p.now);
    }
  }

  lemma CleanKeeps(config: Config, w: World, t: nat, p: Proc, w': World, p': Proc)
    requires (p.CleanStart? || p.CleanPaths? || p.CleanRead?) && Disciplined(p) && CleanStep(config, w, p, w', p')
    ensures Keeps(w, t, p, w', p')
  {
    hide ReadEntries, Paths;
    StaysOutside(w, t, p, w', p');
  }

  lemma CleanLoopKeeps(config: Config, w: World, t: nat, p: Proc, w': World, p': Proc)
    requires p.CleanLoop? && Disciplined(p) && CleanStep(config, w, p, w', p')
    ensures Keeps(w, t, p, w', p')
  {
    hide Expired, ShardId, ShardDir, DeleteIfThere;
    if p.left == [] {
      assert Outside(WriteMeta(p.kept, p.next));
    } else {
      var path := p.left[0].meta.record.bodyPath;
      forall kept ensures Outside(CleanLoop(p.shard, p.valid, p.now, p.left[1..], kept, p.next)) {
      }
      DeleteIfThereIsDisciplined(path, CleanLoop(p.shard, p.valid, p.now, p.left[1..], p.kept, p.next));
    }
    StaysOutside(w, t, p, w', p');
  }

  lemma SweepKeeps(w: World, t: nat, p: Proc, w': World, p': Proc)
    requires p.ScanDir? || p.ScanFiles? || p.OrphanStart? || p.OrphanDirs?
    requires Disciplined(p) && SweepStep(w, p, w', p')
    ensures Keeps(w, t, p, w', p')
  {
    hide Paths, IsShardDir;
    if p.ScanFiles? {
      forall f ensures Outside(ScanFiles(p.files - {f}, p.valid, p.sweepTemps, p.next)) {
      }
    }
    if p.OrphanDirs? {
      forall dir ensures Outside(OrphanDirs(p.valid, p.dirs - {dir})) {
      }
    }
    StaysOutside(w, t, p, w', p');
  }

  lemma LoadKeeps(w: World, t: nat, p: Proc, w': World, p': Proc)
    requires (p.LoadStart? || p.LoadLock? || p.LoadInsert?) && LoadStep(w, t, p, w', p')
    requires Holds(p) ==> w.lock == Some(t)
    ensures Keeps(w, t, p, w', p')
  {
    hide ReadEntries;
  }

  lemma LoadLoopKeeps(w: World, t: nat, p: Proc, w': World, p': Proc)
    requires p.LoadLoop? && LoadStep(w, t, p, w', p') && w.lock == Some(t)
    ensures Keeps(w, t, p, w', p')
  {
    hide Expired, DeleteIfThere;
    if p.left != [] {
      var e, rest := p.left[0], LoadLoop(p.now, p.left[1..]);
      var insert := LoadInsert(e, p.now, p.left[1..]);
      assert Disciplined(rest) && Holds(rest) && ListsRight(w.cache, rest);
      assert Disciplined(insert) && Holds(insert) && ListsRight(w.cache, insert);
      DeleteIfThereIsDisciplined(e.meta.record.bodyPath, rest);
      DeleteListsRight(w.cache, e.meta.record.bodyPath, rest);
    }
  }

  lemma DeleteListsRight(cache: Cache, path: FilePath, next: Proc)
    requires ListsRight(cache, next)
    ensures ListsRight(cache, DeleteIfThere(path, next))
  {
    assert ListsRight(cache, Delete(path, next));
  }

  lemma RemovalKeeps(config: Config, w: World, t: nat, p: Proc, w': World, p': Proc)
    requires (p.IfExists? || p.Delete? || p.RemoveKey?) && Disciplined(p) && Exec(config, w, t, p, w', p')
    requires Holds(p) ==> w.lock == Some(t) && ListsRight(w.cache, p)
    ensures Keeps(w, t, p, w', p')
  {
  }

  lemma StepKeeps(config: Config, w: World, t: nat, p: Proc, w': World, p': Proc)
    requires Disciplined(p) && Exec(config, w, t, p, w', p')
    requires Holds(p) ==> w.lock == Some(t) && ListsRight(w.cache, p)
    ensures Keeps(w, t, p, w', p')
  {
    hide LookUpStep, ReadBodyStep, PutStep, StoreStep, CleanStep, SweepStep, LoadStep, Keeps;
    if p.IfExists? || p.Delete? || p.RemoveKey? { RemovalKeeps(config, w, t, p, w', p'); }
    else if p.LookUp? { LookUpKeeps(config, w, t, p, w', p'); }
    else if p.ReadBody? { ReadBodyKeeps(config, w, t, p, w', p'); }
    else if p.WriteTemp? || p.RenameTemp? { WriteKeeps(config, w, t, p, w', p'); }
    else if p.Insert? { InsertKeeps(config, w, t, p, w', p'); }
    else if p.StoreScan? { StoreScanKeeps(w, t, p, w', p'); }
    else if p.StoreLock? || p.WriteMeta? || p.RenameMeta? { StoreKeeps(w, t, p, w', p'); }
    else if p.CleanLoop? { CleanLoopKeeps(config, w, t, p, w', p'); }
    else if p.CleanStart? || p.CleanPaths? || p.CleanRead? { CleanKeeps(config, w, t, p, w', p'); }
    else if p.ScanDir? || p.ScanFiles? || p.OrphanStart? || p.OrphanDirs? { SweepKeeps(w, t, p, w', p'); }
    else if p.LoadLoop? { LoadLoopKeeps(w, t, p, w', p'); }
    else { LoadKeeps(w, t, p, w', p'); }
  }

  // ---------- The whole system ----------

  /** Whoever holds the lock is the one task whose steps need it, and what it has listed is right. */
  ghost predicate Locked(w: World) {
    && (forall t :: t in w.tasks ==> Disciplined(w.tasks[t]))
    && (forall t :: t in w.tasks && Holds(w.tasks[t]) ==> w.lock == Some(t) && ListsRight(w.cache, w.tasks[t]))
    && (w.lock.Some? ==> w.lock.value in w.tasks && Holds(w.tasks[w.lock.value]))
  }

  /** While another task holds the lock, a step leaves the map alone. */
  lemma LockedMapStands(config: Config, w: World, t: nat, x: World, p': Proc)
    requires Locked(w) && t in w.tasks && Exec(config, w, t, w.tasks[t], x, p')
    requires w.lock.Some? && w.lock != Some(t)
    ensures x.cache == w.cache
  {
    hide Disciplined, ListsRight;
    var p := w.tasks[t];
    if NeedsLock(p) {
      NeedsLockFree(config, w, t, p, x, p');
    } else {
      assert !Holds(p);
      OthersLeaveMap(config, w, t, p, x, p');
    }
  }

  lemma TaskStepKeepsLocked(config: Config, w: World, t: nat, x: World, p': Proc, w': World)
    requires Locked(w) && t in w.tasks && Exec(config, w, t, w.tasks[t], x, p')
    requires w' == x.(tasks := w.tasks[t := p'])
    ensures Locked(w')
  {
    StepKeeps(config, w, t, w.tasks[t], x, p');
    if w.lock.Some? && w.lock != Some(t) {
      LockedMapStands(config, w, t, x, p');
    }
    hide Exec, Disciplined, ListsRight, Holds;
  }

  lemma StartKeepsLocked(config: Config, w: World, t: nat, p: Proc, w': World)
    requires Locked(w) && StartStep(config, w, t, p, w')
    ensures Locked(w')
  {
    assert Outside(Finished(Swept)) && Outside(CleanStart(None, Finished(Swept)));
    assert Outside(p);
    hide Disciplined, ListsRight, Holds, StartStep;
    assert t !in w.tasks && w' == w.(tasks := w.tasks[t := p], puts := w'.puts) by { Started(config, w, t, p, w'); }
  }

  lemma Started(config: Config, w: World, t: nat, p: Proc, w': World)
    requires StartStep(config, w, t, p, w')
    ensures t !in w.tasks && w' == w.(tasks := w.tasks[t := p], puts := w'.puts)
  {
  }

  lemma OtherStepsKeepLocked(config: Config, w: World, w': World)
    requires Locked(w)
    requires ServeStep(w, w') || TickStep(w, w') || CrashStep(config, w, w') || exists t :: CancelStep(w, t, w')
    ensures Locked(w')
  {
    assert Outside(Finished(Cancelled)) && Outside(LoadStart);
    hide Disciplined, ListsRight, Holds;
  }

  lemma WorldStepKeepsLocked(config: Config, w: World, w': World)
    requires Locked(w) && WorldStep(config, w, w')
    ensures Locked(w')
  {
    hide Locked, Exec, StartStep, CancelStep, CrashStep, ServeStep, TickStep;
    if t :| TaskStep(config, w, t, w') {
      var x, p' :| Exec(config, w, t, w.tasks[t], x, p') && w' == x.(tasks := w.tasks[t := p']);
      TaskStepKeepsLocked(config, w, t, x, p', w');
    } else if t, p :| StartStep(config, w, t, p, w') {
      StartKeepsLocked(config, w, t, p, w');
    } else {
      OtherStepsKeepLocked(config, w, w');
    }
  }

  lemma {:induction false} EveryRunIsLocked(config: Config, run: seq<World>, i: nat)
    requires IsRun(config, run) && i < |run|
    ensures Locked(run[i])
    decreases i
  {
    hide WorldStep, Locked;
    if i > 0 {
      EveryRunIsLocked(config, run, i - 1);
      assert StepAt(config, run, i - 1);
      WorldStepKeepsLocked(config, run[i - 1], run[i]);
    } else {
      InitialIsLocked(run[0]);
    }
  }

  lemma InitialIsLocked(w: World)
    requires Initial(w)
    ensures Locked(w)
  {
  }

  /** In every interleaving: when a `store` is about to write, its list has exactly the unexpired entries of the map as
      it is at the step in which the lock is given back, and as it has been since the lock was taken. */
  lemma StoreListsOneMoment(config: Config, run: seq<World>, i: nat, t: nat, x: World, p': Proc)
    requires IsRun(config, run) && i < |run| && t in run[i].tasks && run[i].tasks[t].StoreScan?
    requires Exec(config, run[i], t, run[i].tasks[t], x, p') && p'.WriteMeta? && x.lock.None?
    ensures run[i].lock == Some(t) && x.cache == run[i].cache
    ensures ListsUnexpired(p'.entries, run[i].cache, run[i].tasks[t].now)
  {
    EveryRunIsLocked(config, run, i);
    var p := run[i].tasks[t];
    assert Holds(p) && run[i].lock == Some(t) && ListsRight(run[i].cache, p);
    assert p.todo == {};
    assert run[i].cache - {} == run[i].cache;
  }
}
