/** In every interleaving, with failures, crashes and restarts: the map stays within its capacity. Every list of
    entries that may ever be written to the metadata file, or loaded from it, has at most that many keys. */
module CacheTaskCapacity {
  import opened Wrappers
  import opened CacheTypes
  import opened CacheSpec
  import opened CacheTasks
  import opened CacheTaskSafety

  /** A cache of capacity 0 still takes one entry: nothing is evicted from an empty map. */
  function Bound(config: Config): nat {
    if config.capacity == 0 then 1 else config.capacity
  }

  function KeysOf(entries: seq<Entry>): set<string> {
    set e | e in entries :: e.key
  }

  function StoredKeys(stored: seq<StoredEntry>): set<string> {
    set e | e in stored :: e.key
  }

  predicate Fits(bound: nat, keys: set<string>) {
    |keys| <= bound
  }

  predicate MetaFits(bound: nat, stored: Meta) {
    stored.Some? ==> Fits(bound, StoredKeys(stored.value))
  }

  /** Part of `load`, or its end. */
  predicate Boots(p: Proc) {
    match p
    case Finished(result) => result == Loaded
    case IfExists(_, yes, no) => Boots(yes) || Boots(no)
    case Delete(_, next) => Boots(next)
    case LoadStart => true
    case LoadLock(_) => true
    case LoadLoop(_, _) => true
    case LoadInsert(_, _, _) => true
    case _ => false
  }

  /** The keys a task may still load. */
  function Loading(p: Proc): set<string> {
    match p
    case IfExists(_, yes, no) => Loading(yes) + Loading(no)
    case Delete(_, next) => Loading(next)
    case LoadLock(left) => KeysOf(left)
    case LoadLoop(_, left) => KeysOf(left)
    case LoadInsert(entry, _, left) => {entry.key} + KeysOf(left)
    case _ => {}
  }

  predicate Inner(p: Proc) {
    !Renames(p) && !p.Insert? && !p.WriteTemp? && !p.LoadStart?
  }

  predicate Plain(p: Proc) {
    Inner(p) && !Boots(p)
  }

  /** The lists a task works on fit, and so do those of its continuations. */
  predicate FitsProc(bound: nat, p: Proc) {
    match p
    case IfExists(_, yes, no) => Inner(yes) && Inner(no) && FitsProc(bound, yes) && FitsProc(bound, no)
    case Delete(_, next) => Inner(next) && FitsProc(bound, next)
    case RemoveKey(_, next) => Plain(next) && FitsProc(bound, next)
    case StoreLock(next) => Plain(next) && FitsProc(bound, next)
    case StoreScan(_, todo, listed, next) =>
      Fits(bound, todo + KeysOf(listed)) && Plain(next) && FitsProc(bound, next)
    case WriteMeta(entries, next) => Fits(bound, KeysOf(entries)) && Plain(next) && FitsProc(bound, next)
    case RenameMeta(next) => Plain(next) && FitsProc(bound, next)
    case CleanStart(_, next) => Plain(next) && FitsProc(bound, next)
    case CleanPaths(_, next) => Plain(next) && FitsProc(bound, next)
    case CleanRead(_, _, next) => Plain(next) && FitsProc(bound, next)
    case CleanLoop(_, _, _, left, kept, next) =>
      Fits(bound, KeysOf(left) + KeysOf(kept)) && Plain(next) && FitsProc(bound, next)
    case ScanDir(_, _, _, next) => Plain(next) && FitsProc(bound, next)
    case ScanFiles(_, _, _, next) => Plain(next) && FitsProc(bound, next)
    case _ => true
  }

  // ---------- The invariant ----------

  predicate Puts(p: Proc) {
    p.WriteTemp? || p.RenameTemp? || p.Insert?
  }

  /** Task 0 is the `load` of this process, and the only one; nothing is put before it has ended. */
  predicate Booting(w: World) {
    && 0 in w.tasks
    && (forall t :: t in w.tasks && Boots(w.tasks[t]) ==> t == 0)
    && (w.serving ==> w.tasks[0] == Finished(Loaded))
    && (!w.serving ==> forall t :: t in w.tasks ==> !Puts(w.tasks[t]))
    && (w.tasks[0].LoadStart? ==> w.cache == map[])
  }

  predicate TasksFit(bound: nat, tasks: map<nat, Proc>) {
    forall t :: t in tasks ==> FitsProc(bound, tasks[t])
  }

  ghost predicate InBounds(config: Config, w: World) {
    var bound := Bound(config);
    && Booting(w)
    && Fits(bound, w.cache.Keys + Loading(w.tasks[0]))
    && MetaFits(bound, w.snapshot)
    && ((exists t :: t in w.tasks && w.tasks[t].RenameMeta?) ==> MetaFits(bound, w.metaTemp))
    && TasksFit(bound, w.tasks)
  }

  // ---------- Counting ----------

  lemma FitsSubset(bound: nat, keys: set<string>, fewer: set<string>)
    requires Fits(bound, keys) && fewer <= keys
    ensures Fits(bound, fewer)
  {
    assert keys == fewer + (keys - fewer);
  }

  lemma WrittenKeys(entries: seq<Entry>, clock: Clock)
    ensures StoredKeys(WriteEntries(entries, clock)) == KeysOf(entries)
  {
  }

  lemma ReadKeys(stored: seq<StoredEntry>, clock: Clock)
    requires Readable(stored, clock)
    ensures KeysOf(ReadEntries(stored, clock)) == StoredKeys(stored)
  {
  }

  lemma KeysOfSplit(entries: seq<Entry>)
    requires entries != []
    ensures KeysOf(entries) == {entries[0].key} + KeysOf(entries[1..])
  {
  }

  lemma KeysOfAppend(entries: seq<Entry>, e: Entry)
    ensures KeysOf(entries + [e]) == KeysOf(entries) + {e.key}
  {
  }

  // ---------- Continuations ----------

  lemma PersistFits(config: Config, bound: nat, key: string, withBucket: bool, next: Proc)
    requires Plain(next) && FitsProc(bound, next)
    ensures var p := Persist(config, key, withBucket, next); Plain(p) && FitsProc(bound, p)
  {
  }

  lemma MissFits(config: Config, bound: nat, key: string, withBucket: bool)
    ensures var p := MissAfter(config, key, withBucket); Plain(p) && FitsProc(bound, p)
  {
  }

  lemma DeleteIfThereFits(bound: nat, path: FilePath, next: Proc)
    requires Plain(next) && FitsProc(bound, next)
    ensures var p := DeleteIfThere(path, next); Plain(p) && FitsProc(bound, p)
  {
  }

  // ---------- Each step of a task that is not `load` ----------

  lemma LookUpFits(config: Config, bound: nat, w: World, p: Proc, w': World, p': Proc)
    requires p.LookUp? && LookUpStep(config, w, p, w', p')
    ensures Plain(p') && FitsProc(bound, p')
  {
    hide FitsProc, AfterUnknown, AfterFound;
    if p.key in w.cache {
      AfterFoundFits(config, bound, p.key, w.cache[p.key], p.withBucket, w.clock.now);
    } else {
      AfterUnknownFits(config, bound, p.key, p.withBucket);
    }
  }

  lemma AfterUnknownFits(config: Config, bound: nat, key: string, withBucket: bool)
    ensures Plain(AfterUnknown(config, key, withBucket)) && FitsProc(bound, AfterUnknown(config, key, withBucket))
  {
    var drop := Delete(BodyPath(config, key), MissAfter(config, key, withBucket));
    MissFits(config, bound, key, withBucket);
    assert FitsProc(bound, drop) && Plain(drop) && Plain(Finished(Found(key, Miss)));
  }

  lemma AfterFoundFits(config: Config, bound: nat, key: string, meta: Metadata, withBucket: bool, now: int)
    ensures Plain(AfterFound(config, key, meta, withBucket, now))
    ensures FitsProc(bound, AfterFound(config, key, meta, withBucket, now))
  {
    hide Expired, MissAfter;
    var path, miss := meta.record.bodyPath, MissAfter(config, key, withBucket);
    MissFits(config, bound, key, withBucket);
    DeleteIfThereFits(bound, path, miss);
    assert FitsProc(bound, RemoveKey(key, miss)) && Plain(RemoveKey(key, miss));
    assert Plain(ReadBody(key, meta, withBucket));
  }

  lemma ReadBodyFits(config: Config, bound: nat, w: World, p: Proc, w': World, p': Proc)
    requires p.ReadBody? && ReadBodyStep(config, w, p, w', p')
    ensures Plain(p') && FitsProc(bound, p')
  {
    hide MissAfter;
    var miss := MissAfter(config, p.key, p.withBucket);
    MissFits(config, bound, p.key, p.withBucket);
    assert FitsProc(bound, Delete(p.meta.record.bodyPath, miss)) && !Boots(Delete(p.meta.record.bodyPath, miss));
  }

  lemma AfterPutFits(config: Config, bound: nat, job: PutRecord, path: FilePath)
    ensures var after := StoreAfterPut(config, job);
      && Plain(after) && FitsProc(bound, after)
      && var p := DeleteIfThere(path, Persist(config, job.key, job.withBucket, after));
         Plain(p) && FitsProc(bound, p)
  {
    var after := StoreAfterPut(config, job);
    assert Plain(after) && FitsProc(bound, after);
    PersistFits(config, bound, job.key, job.withBucket, after);
    DeleteIfThereFits(bound, path, Persist(config, job.key, job.withBucket, after));
  }

  /** An insertion either replaces, or goes into free room, or takes the place of the evicted entry. */
  lemma InsertKeepsBound(config: Config, cache: Cache, key: string, meta: Metadata, cache': Cache)
    requires Fits(Bound(config), cache.Keys)
    requires if MustEvict(config, cache, key)
             then exists victim :: victim in cache && cache' == (cache - {victim})[key := meta]
             else cache' == cache[key := meta]
    ensures Fits(Bound(config), cache'.Keys)
  {
  }

  lemma InsertFits(config: Config, w: World, p: Proc, w': World, p': Proc)
    requires p.Insert? && PutStep(config, w, p, w', p') && Fits(Bound(config), w.cache.Keys)
    ensures Plain(p') && FitsProc(Bound(config), p') && Fits(Bound(config), w'.cache.Keys)
  {
    hide StoreAfterPut, Persist, DeleteIfThere, RecordOf;
    var meta := Metadata(RecordOf(config, p.job), p.createdAt);
    if MustEvict(config, w.cache, p.job.key) {
      var victim :|
        && IsOldest(w.cache, victim)
        && w' == w.(cache := (w.cache - {victim})[p.job.key := meta])
        && p' == DeleteIfThere(w.cache[victim].record.bodyPath,
             Persist(config, p.job.key, p.job.withBucket, StoreAfterPut(config, p.job)));
      AfterPutFits(config, Bound(config), p.job, w.cache[victim].record.bodyPath);
    } else {
      AfterPutFits(config, Bound(config), p.job, BodyPath(config, p.job.key));
    }
    InsertKeepsBound(config, w.cache, p.job.key, meta, w'.cache);
  }

  lemma StoreScanFits(bound: nat, w: World, t: nat, p: Proc, w': World, p': Proc)
    requires p.StoreScan? && FitsProc(bound, p) && StoreStep(w, t, p, w', p')
    ensures Plain(p') && FitsProc(bound, p')
  {
    if p.todo == {} {
      assert p.todo + KeysOf(p.listed) == KeysOf(p.listed);
    } else {
      hide Scanned;
      var key :| key in p.todo && key in w.cache && p' == Scanned(p, key, w.cache[key]);
      ScannedFits(bound, p, key, w.cache[key]);
    }
  }

  lemma ScannedFits(bound: nat, p: Proc, key: string, meta: Metadata)
    requires p.StoreScan? && FitsProc(bound, p) && key in p.todo
    ensures Plain(Scanned(p, key, meta)) && FitsProc(bound, Scanned(p, key, meta))
  {
    var todo, listed := p.todo - {key}, p.listed + [Entry(key, meta)];
    KeysOfAppend(p.listed, Entry(key, meta));
    assert todo + KeysOf(listed) == p.todo + KeysOf(p.listed);
    FitsSubset(bound, p.todo + KeysOf(p.listed), todo + KeysOf(p.listed));
    var skipped := StoreScan(p.now, todo, p.listed, p.next);
    assert FitsProc(bound, skipped);
    DeleteIfThereFits(bound, meta.record.bodyPath, skipped);
  }

  lemma CleanFits(config: Config, bound: nat, w: World, p: Proc, w': World, p': Proc)
    requires (p.CleanStart? || p.CleanPaths? || p.CleanRead?) && FitsProc(bound, p) && MetaFits(bound, w.snapshot)
    requires CleanStep(config, w, p, w', p')
    ensures Plain(p') && FitsProc(bound, p')
  {
    if p.CleanRead? && w.snapshot.Some? && Readable(w.snapshot.value, w.clock) {
      var entries := ReadEntries(w.snapshot.value, w.clock);
      ReadKeys(w.snapshot.value, w.clock);
      assert KeysOf(entries) + KeysOf([]) == KeysOf(entries);
    }
  }

  lemma CleanLoopFits(config: Config, bound: nat, w: World, p: Proc, w': World, p': Proc)
    requires p.CleanLoop? && FitsProc(bound, p) && CleanStep(config, w, p, w', p')
    ensures Plain(p') && FitsProc(bound, p')
  {
    hide FitsProc, Expired, DeleteIfThere;
    if p.left == [] {
      CleanedFits(bound, p);
    } else {
      CleaningFits(bound, p);
    }
  }

  lemma CleanedFits(bound: nat, p: Proc)
    requires p.CleanLoop? && FitsProc(bound, p) && p.left == []
    ensures FitsProc(bound, WriteMeta(p.kept, p.next))
    ensures p.shard.Some? ==>
      FitsProc(bound, ScanDir(ShardDir(p.shard.value), p.valid, false, WriteMeta(p.kept, p.next)))
  {
  }

  lemma CleaningFits(bound: nat, p: Proc)
    requires p.CleanLoop? && FitsProc(bound, p) && p.left != []
    ensures var path := p.left[0].meta.record.bodyPath;
      && FitsProc(bound, Kept(p)) && FitsProc(bound, Dropped(p))
      && Plain(DeleteIfThere(path, Dropped(p))) && FitsProc(bound, DeleteIfThere(path, Dropped(p)))
      && Plain(IfExists(path, Kept(p), Dropped(p))) && FitsProc(bound, IfExists(path, Kept(p), Dropped(p)))
  {
    hide Fits, KeysOf;
    KeptFits(bound, p);
    DroppedFits(bound, p);
    assert Plain(Kept(p)) && Plain(Dropped(p));
    DeleteIfThereFits(bound, p.left[0].meta.record.bodyPath, Dropped(p));
  }

  function Kept(p: Proc): (k: Proc)
    requires p.CleanLoop? && p.left != []
    ensures k.CleanLoop?
  {
    CleanLoop(p.shard, p.valid, p.now, p.left[1..], p.kept + [p.left[0]], p.next)
  }

  function Dropped(p: Proc): (d: Proc)
    requires p.CleanLoop? && p.left != []
    ensures d.CleanLoop?
  {
    CleanLoop(p.shard, p.valid, p.now, p.left[1..], p.kept, p.next)
  }

  lemma KeptFits(bound: nat, p: Proc)
    requires p.CleanLoop? && FitsProc(bound, p) && p.left != []
    ensures FitsProc(bound, Kept(p))
  {
    KeysOfSplit(p.left);
    KeysOfAppend(p.kept, p.left[0]);
    assert KeysOf(p.left[1..]) + KeysOf(p.kept + [p.left[0]]) == KeysOf(p.left) + KeysOf(p.kept);
  }

  lemma DroppedFits(bound: nat, p: Proc)
    requires p.CleanLoop? && FitsProc(bound, p) && p.left != []
    ensures FitsProc(bound, Dropped(p))
  {
    KeysOfSplit(p.left);
    FitsSubset(bound, KeysOf(p.left) + KeysOf(p.kept), KeysOf(p.left[1..]) + KeysOf(p.kept));
  }

  lemma SweepFits(bound: nat, w: World, p: Proc, w': World, p': Proc)
    requires p.ScanDir? || p.ScanFiles? || p.OrphanStart? || p.OrphanDirs?
    requires FitsProc(bound, p) && SweepStep(w, p, w', p')
    ensures Plain(p') && FitsProc(bound, p')
  {
  }

  /** What one step of one task establishes. */
  ghost predicate StepFits(bound: nat, w: World, w': World, p': Proc) {
    && w'.tasks == w.tasks && w'.serving == w.serving
    && MetaFits(bound, w'.snapshot)
    && (MetaFits(bound, w.metaTemp) || p'.RenameMeta? ==> MetaFits(bound, w'.metaTemp))
    && FitsProc(bound, p') && !p'.LoadStart?
  }

  lemma LockedStoreFits(bound: nat, w: World, t: nat, p: Proc, w': World, p': Proc)
    requires p.StoreLock? && FitsProc(bound, p) && Fits(bound, w.cache.Keys) && StoreStep(w, t, p, w', p')
    ensures Plain(p') && FitsProc(bound, p')
  {
  }

  lemma WriteMetaFits(bound: nat, w: World, t: nat, p: Proc, w': World, p': Proc)
    requires p.WriteMeta? && FitsProc(bound, p) && MetaFits(bound, w.snapshot) && StoreStep(w, t, p, w', p')
    ensures StepFits(bound, w, w', p') && w'.cache == w.cache && !Boots(p') && !Puts(p')
  {
    WrittenKeys(p.entries, w.clock);
  }

  lemma RenameMetaFits(bound: nat, w: World, t: nat, p: Proc, w': World, p': Proc)
    requires p.RenameMeta? && FitsProc(bound, p) && StoreStep(w, t, p, w', p')
    requires MetaFits(bound, w.snapshot) && MetaFits(bound, w.metaTemp)
    ensures StepFits(bound, w, w', p') && w'.cache == w.cache && !Boots(p') && !Puts(p')
  {
  }

  predicate QuietNow(p: Proc) {
    Quiet(p) && !Boots(p)
  }

  lemma QuietFits(config: Config, bound: nat, w: World, t: nat, p: Proc, w': World, p': Proc)
    requires QuietNow(p) && FitsProc(bound, p) && Exec(config, w, t, p, w', p')
    requires Fits(bound, w.cache.Keys) && MetaFits(bound, w.snapshot)
    ensures Plain(p') && FitsProc(bound, p')
  {
    hide FitsProc, LookUpStep, ReadBodyStep, StoreStep, CleanStep, SweepStep, LoadStep;
    if p.LookUp? { LookUpFits(config, bound, w, p, w', p'); }
    else if p.ReadBody? { ReadBodyFits(config, bound, w, p, w', p'); }
    else if p.StoreLock? { LockedStoreFits(bound, w, t, p, w', p'); }
    else if p.StoreScan? { StoreScanFits(bound, w, t, p, w', p'); }
    else if p.CleanStart? || p.CleanPaths? || p.CleanRead? { CleanFits(config, bound, w, p, w', p'); }
    else if p.CleanLoop? { CleanLoopFits(config, bound, w, p, w', p'); }
    else if p.ScanDir? || p.ScanFiles? || p.OrphanStart? || p.OrphanDirs? { SweepFits(bound, w, p, w', p'); }
  }

  lemma QuietStepFits(config: Config, bound: nat, w: World, t: nat, p: Proc, w': World, p': Proc)
    requires QuietNow(p) && FitsProc(bound, p) && Exec(config, w, t, p, w', p')
    requires Fits(bound, w.cache.Keys) && MetaFits(bound, w.snapshot)
    ensures StepFits(bound, w, w', p') && w'.cache == w.cache && !Boots(p') && !Puts(p')
  {
    QuietFits(config, bound, w, t, p, w', p');
    QuietKeepsData(config, w, t, p, w', p');
    QuietKeepsServing(config, w, t, p, w', p');
  }

  lemma QuietKeepsServing(config: Config, w: World, t: nat, p: Proc, w': World, p': Proc)
    requires Quiet(p) && Exec(config, w, t, p, w', p')
    ensures w'.serving == w.serving
  {
    hide AfterUnknown, AfterFound, Scanned, MissAfter, DeleteIfThere, Decode, ReadEntries, Paths, Expired, ShardDir;
  }

  lemma SimpleStepFits(config: Config, bound: nat, w: World, t: nat, p: Proc, w': World, p': Proc)
    requires p.IfExists? || p.Delete? || p.RemoveKey? || p.WriteTemp? || p.RenameTemp?
    requires FitsProc(bound, p) && !Boots(p) && Exec(config, w, t, p, w', p') && MetaFits(bound, w.snapshot)
    ensures StepFits(bound, w, w', p') && w'.cache.Keys <= w.cache.Keys && !Boots(p') && (Puts(p') ==> Puts(p))
  {
  }

  /** A task other than `load`: only an insertion adds a key. */
  lemma TaskFits(config: Config, w: World, t: nat, p: Proc, w': World, p': Proc)
    requires FitsProc(Bound(config), p) && !Boots(p) && Exec(config, w, t, p, w', p')
    requires Fits(Bound(config), w.cache.Keys) && MetaFits(Bound(config), w.snapshot)
    requires p.RenameMeta? ==> MetaFits(Bound(config), w.metaTemp)
    ensures StepFits(Bound(config), w, w', p') && !Boots(p') && (Puts(p') ==> Puts(p))
    ensures Fits(Bound(config), w'.cache.Keys) && (!p.Insert? ==> w'.cache.Keys <= w.cache.Keys)
  {
    hide FitsProc, LookUpStep, ReadBodyStep, StoreStep, CleanStep, SweepStep, LoadStep, PutStep, Fits, StepFits;
    var bound := Bound(config);
    if QuietNow(p) {
      QuietStepFits(config, bound, w, t, p, w', p');
    } else if p.WriteMeta? {
      WriteMetaFits(bound, w, t, p, w', p');
    } else if p.RenameMeta? {
      RenameMetaFits(bound, w, t, p, w', p');
    } else if p.Insert? {
      InsertFits(config, w, p, w', p');
      InsertStepFits(config, w, p, w', p');
    } else {
      SimpleStepFits(config, bound, w, t, p, w', p');
      FitsSubset(bound, w.cache.Keys, w'.cache.Keys);
    }
  }

  lemma InsertStepFits(config: Config, w: World, p: Proc, w': World, p': Proc)
    requires p.Insert? && PutStep(config, w, p, w', p') && MetaFits(Bound(config), w.snapshot)
    requires Plain(p') && FitsProc(Bound(config), p')
    ensures StepFits(Bound(config), w, w', p')
  {
  }

  // ---------- Each step of `load` ----------

  /** Loading an entry moves its key from the list to the map. */
  lemma BootFits(config: Config, w: World, t: nat, p: Proc, w': World, p': Proc)
    requires FitsProc(Bound(config), p) && Boots(p) && Exec(config, w, t, p, w', p')
    requires Fits(Bound(config), w.cache.Keys + Loading(p)) && MetaFits(Bound(config), w.snapshot)
    requires p.LoadStart? ==> w.cache == map[]
    ensures StepFits(Bound(config), w, w', p') && !Puts(p') && !p'.RenameMeta?
    ensures Fits(Bound(config), w'.cache.Keys + Loading(p'))
  {
    hide Exec, FitsProc, Boots, Loading;
    BootLeavesMeta(config, w, t, p, w', p');
    BootContinues(config, Bound(config), w, t, p, w', p');
    if p.LoadStart? {
      LoadStartFits(config, w, t, p, w', p');
    } else {
      BootMovesKeys(config, w, t, p, w', p');
      FitsSubset(Bound(config), w.cache.Keys + Loading(p), w'.cache.Keys + Loading(p'));
    }
  }

  lemma BootLeavesMeta(config: Config, w: World, t: nat, p: Proc, w': World, p': Proc)
    requires Boots(p) && Exec(config, w, t, p, w', p')
    ensures w'.tasks == w.tasks && w'.serving == w.serving
    ensures w'.snapshot == w.snapshot && w'.metaTemp == w.metaTemp
  {
  }

  lemma BootContinues(config: Config, bound: nat, w: World, t: nat, p: Proc, w': World, p': Proc)
    requires Boots(p) && FitsProc(bound, p) && Exec(config, w, t, p, w', p')
    ensures Inner(p') && FitsProc(bound, p')
  {
    if p.LoadLoop? && p.left != [] {
      var rest := LoadLoop(p.now, p.left[1..]);
      assert FitsProc(bound, rest) && FitsProc(bound, LoadInsert(p.left[0], p.now, p.left[1..]));
      assert FitsProc(bound, Delete(p.left[0].meta.record.bodyPath, rest));
    }
  }

  lemma BootMovesKeys(config: Config, w: World, t: nat, p: Proc, w': World, p': Proc)
    requires Boots(p) && !p.LoadStart? && Exec(config, w, t, p, w', p')
    ensures w'.cache.Keys + Loading(p') <= w.cache.Keys + Loading(p)
  {
  }

  lemma LoadStartFits(config: Config, w: World, t: nat, p: Proc, w': World, p': Proc)
    requires p.LoadStart? && Exec(config, w, t, p, w', p') && w.cache == map[] && MetaFits(Bound(config), w.snapshot)
    ensures Fits(Bound(config), w'.cache.Keys + Loading(p'))
  {
    if p'.LoadLock? {
      ReadKeys(w.snapshot.value, w.clock);
      assert w'.cache.Keys + Loading(p') == StoredKeys(w.snapshot.value);
    } else {
      assert w'.cache.Keys + Loading(p') == {};
    }
  }

  // ---------- Runs ----------

  lemma QuietProcLoadsNothing(p: Proc)
    requires !Boots(p)
    ensures Loading(p) == {}
    decreases p
  {
  }

  /** How a step of a task that is not `load` bears on what task 0 may still load. */
  lemma LoadStillFits(config: Config, w: World, t: nat, x: World, p': Proc)
    requires InBounds(config, w) && t in w.tasks && !Boots(p') && (w.tasks[t].Insert? ==> t != 0)
    requires Fits(Bound(config), x.cache.Keys) && (!w.tasks[t].Insert? ==> x.cache.Keys <= w.cache.Keys)
    ensures Fits(Bound(config), x.cache.Keys + Loading(w.tasks[t := p'][0]))
    ensures t != 0 && w.tasks[0].LoadStart? ==> x.cache == map[]
  {
    assert w.serving ==> Loading(w.tasks[0]) == {};
    hide Boots, Loading, FitsProc;
    assert x.cache.Keys + {} == x.cache.Keys;
    if t == 0 {
      QuietProcLoadsNothing(p');
    } else if w.tasks[t].Insert? {
      assert w.serving;
    } else {
      FitsSubset(Bound(config), w.cache.Keys + Loading(w.tasks[0]), x.cache.Keys + Loading(w.tasks[0]));
      assert w.cache == map[] ==> x.cache.Keys == {};
    }
  }

  lemma StepStaysInBounds(config: Config, w: World, t: nat, x: World, p': Proc, w': World)
    requires InBounds(config, w) && t in w.tasks && w' == x.(tasks := w.tasks[t := p'])
    requires StepFits(Bound(config), w, x, p') && (w.serving ==> t != 0)
    requires (Boots(p') ==> Boots(w.tasks[t])) && (Puts(p') ==> Puts(w.tasks[t]))
    requires Fits(Bound(config), x.cache.Keys + Loading(w'.tasks[0]))
    requires t != 0 && w.tasks[0].LoadStart? ==> x.cache == map[]
    ensures InBounds(config, w')
  {
    hide FitsProc, Boots, Loading, Fits;
    if exists u :: u in w'.tasks && w'.tasks[u].RenameMeta? {
      var u :| u in w'.tasks && w'.tasks[u].RenameMeta?;
      if u != t {
        assert u in w.tasks && w.tasks[u].RenameMeta?;
      }
    }
    forall u | u in w'.tasks && Boots(w'.tasks[u]) ensures u == 0 {
      assert Boots(w.tasks[u]);
    }
    if !w'.serving {
      forall u | u in w'.tasks ensures !Puts(w'.tasks[u]) {
        assert u in w.tasks && !Puts(w.tasks[u]);
      }
    }
  }

  lemma TaskStepFits(config: Config, w: World, t: nat, w': World)
    requires InBounds(config, w) && TaskStep(config, w, t, w')
    ensures InBounds(config, w')
  {
    var p := w.tasks[t];
    var x, p' :| Exec(config, w, t, p, x, p') && w' == x.(tasks := w.tasks[t := p']);
    assert !p.Finished?;
    hide Exec, FitsProc, Boots, Loading;
    FitsSubset(Bound(config), w.cache.Keys + Loading(w.tasks[0]), w.cache.Keys);
    if Boots(p) {
      BootFits(config, w, t, p, x, p');
    } else {
      TaskFits(config, w, t, p, x, p');
      LoadStillFits(config, w, t, x, p');
    }
    StepStaysInBounds(config, w, t, x, p', w');
  }

  lemma StartedFits(config: Config, w: World, t: nat, p: Proc, w': World)
    requires StartStep(config, w, t, p, w')
    ensures FitsProc(Bound(config), p) && !Boots(p) && !p.RenameMeta? && (Puts(p) ==> w.serving)
    ensures w' == w.(tasks := w.tasks[t := p], puts := w'.puts) && t !in w.tasks
  {
    var sweep: Proc := Finished(Swept);
    assert FitsProc(Bound(config), CleanStart(None, sweep)) && Plain(sweep);
  }

  lemma StartStepFits(config: Config, w: World, t: nat, p: Proc, w': World)
    requires InBounds(config, w) && StartStep(config, w, t, p, w')
    ensures InBounds(config, w')
  {
    hide FitsProc, Boots, Loading, Fits, StartStep, StoredKeys;
    StartedFits(config, w, t, p, w');
    if exists u :: u in w'.tasks && w'.tasks[u].RenameMeta? {
      var u :| u in w'.tasks && w'.tasks[u].RenameMeta?;
      assert u in w.tasks && w.tasks[u].RenameMeta?;
    }
    assert 0 in w.tasks && t != 0;
  }

  /** A process that has just started. */
  lemma BootedFits(config: Config, w: World)
    requires w.cache == map[] && w.tasks == map[0 := LoadStart] && !w.serving && MetaFits(Bound(config), w.snapshot)
    ensures InBounds(config, w)
  {
    assert w.cache.Keys + Loading(LoadStart) == {};
  }

  lemma CrashStepFits(config: Config, w: World, w': World)
    requires InBounds(config, w) && CrashStep(config, w, w')
    ensures InBounds(config, w')
  {
    hide FitsProc, Boots, Loading, Fits, StoredKeys, BeingWritten;
    BootedFits(config, w');
  }

  lemma ServeStepFits(config: Config, w: World, w': World)
    requires InBounds(config, w) && ServeStep(w, w')
    ensures InBounds(config, w')
  {
  }

  lemma TickStepFits(config: Config, w: World, w': World)
    requires InBounds(config, w) && TickStep(w, w')
    ensures InBounds(config, w')
  {
    hide FitsProc, Boots, Loading, Fits;
  }

  lemma CancelStepFits(config: Config, w: World, t: nat, w': World)
    requires InBounds(config, w) && CancelStep(w, t, w')
    ensures InBounds(config, w')
  {
    assert !Boots(Finished(Cancelled)) && FitsProc(Bound(config), Finished(Cancelled));
    hide FitsProc, Boots, Loading, Fits;
    if exists u :: u in w'.tasks && w'.tasks[u].RenameMeta? {
      var u :| u in w'.tasks && w'.tasks[u].RenameMeta?;
      assert u in w.tasks && w.tasks[u].RenameMeta?;
    }
  }

  lemma WorldStepFits(config: Config, w: World, w': World)
    requires InBounds(config, w) && WorldStep(config, w, w')
    ensures InBounds(config, w')
  {
    hide InBounds, TaskStep, StartStep, ServeStep, TickStep, CancelStep, CrashStep;
    if t :| TaskStep(config, w, t, w') {
      TaskStepFits(config, w, t, w');
    } else if t, p :| StartStep(config, w, t, p, w') {
      StartStepFits(config, w, t, p, w');
    } else if ServeStep(w, w') {
      ServeStepFits(config, w, w');
    } else if TickStep(w, w') {
      TickStepFits(config, w, w');
    } else if t :| CancelStep(w, t, w') {
      CancelStepFits(config, w, t, w');
    } else {
      CrashStepFits(config, w, w');
    }
  }

  lemma InitialFits(config: Config, w: World)
    requires Initial(w)
    ensures InBounds(config, w)
  {
    BootedFits(config, w);
  }

  lemma {:induction false} EveryRunStaysInBounds(config: Config, run: seq<World>, i: nat)
    requires IsRun(config, run) && i < |run|
    ensures InBounds(config, run[i])
    decreases i
  {
    hide InBounds, WorldStep, Initial;
    if i == 0 {
      InitialFits(config, run[0]);
    } else {
      EveryRunStaysInBounds(config, run, i - 1);
      assert StepAt(config, run, i - 1);
      WorldStepFits(config, run[i - 1], run[i]);
    }
  }

  /** In every reachable state the map holds at most `capacity` entries, or one if the capacity is 0; and so does
      the metadata file, counted by key. */
  lemma MapStaysWithinCapacity(config: Config, run: seq<World>, i: nat)
    requires IsRun(config, run) && i < |run|
    ensures |run[i].cache| <= Bound(config)
    ensures run[i].snapshot.Some? ==> |StoredKeys(run[i].snapshot.value)| <= Bound(config)
  {
    EveryRunStaysInBounds(config, run, i);
    var w := run[i];
    FitsSubset(Bound(config), w.cache.Keys + Loading(w.tasks[0]), w.cache.Keys);
    assert |w.cache| == |w.cache.Keys|;
  }
}
