/** A task that is left alone, while no file operation fails and the clock stands still, comes to its end: no operation
    of the cache gets stuck or goes on forever. */
module CacheAloneEnds {
  import opened Wrappers
  import opened CacheTypes
  import opened CacheFacts
  import opened CacheSpec
  import opened CacheTasks
  import opened CacheAlone
  import CacheCollision

  // ---------- What a task may still do ----------

  /** The task holds the lock. */
  predicate Holds(p: Proc) {
    match p
    case StoreScan(_, _, _, _) => true
    case LoadLoop(_, _) => true
    case LoadInsert(_, _, _) => true
    case IfExists(_, yes, _) => Holds(yes)
    case Delete(_, next) => Holds(next)
    case _ => false
  }

  /** It can begin in any state, without the lock. */
  predicate Begins(p: Proc) {
    match p
    case IfExists(_, yes, no) => Begins(yes) && Begins(no)
    case Delete(_, next) => Begins(next)
    case RemoveKey(_, next) => Begins(next)
    case StoreLock(next) => Begins(next)
    case WriteMeta(_, next) => Begins(next)
    case CleanStart(_, next) => Begins(next)
    case ScanDir(_, _, _, next) => Begins(next)
    case OrphanDirs(_, _) => true
    case Finished(_) => true
    case _ => false
  }

  predicate Continues(p: Proc) {
    !p.WriteTemp? && !p.RenameTemp? && !p.LoadStart?
  }

  /** What its next steps need of the state is there. */
  predicate Ready(config: Config, w: World, p: Proc) {
    match p
    case IfExists(_, yes, no) =>
      && Ready(config, w, yes) && Ready(config, w, no) && Holds(yes) == Holds(no)
      && Continues(yes) && Continues(no)
    case Delete(_, next) => Ready(config, w, next) && Continues(next)
    case RemoveKey(_, next) => Begins(next)
    case RenameTemp(job) => TempOf(BodyPath(config, job.key)) in w.files
    case StoreLock(next) => Begins(next)
    case StoreScan(_, todo, _, next) => todo <= w.cache.Keys && Begins(next)
    case WriteMeta(_, next) => Begins(next)
    case RenameMeta(next) => w.metaTemp.Some? && Begins(next)
    case CleanStart(_, next) => Begins(next)
    case CleanPaths(_, next) => Begins(next)
    case CleanRead(_, _, next) => Begins(next)
    case CleanLoop(_, _, _, _, _, next) => Begins(next)
    case ScanDir(_, _, _, next) => Begins(next)
    case ScanFiles(_, _, _, next) => Begins(next)
    case _ => true
  }

  lemma BeginsIsReady(config: Config, w: World, p: Proc)
    requires Begins(p)
    ensures Ready(config, w, p) && !Holds(p) && Continues(p)
  {
    match p
    case IfExists(_, yes, no) => BeginsIsReady(config, w, yes); BeginsIsReady(config, w, no);
    case Delete(_, next) => BeginsIsReady(config, w, next);
    case _ =>
  }

  // ---------- How much is still to do ----------

  function Max(a: nat, b: nat): nat {
    if a > b then a else b
  }

  function MissWork(n: nat): nat {
    8 * n + 13
  }

  /** At most this many steps, if the lists and sets of the state have at most `n` elements. */
  function Work(n: nat, p: Proc): nat {
    match p
    case Finished(_) => 0
    case IfExists(_, yes, no) => 1 + Max(Work(n, yes), Work(n, no))
    case Delete(_, next) => 1 + Work(n, next)
    case RemoveKey(_, next) => 1 + Work(n, next)
    case LookUp(_, _) => MissWork(n) + 6
    case ReadBody(_, _, _) => MissWork(n) + 3
    case WriteTemp(_) => 11 * n + 25
    case RenameTemp(_) => 11 * n + 24
    case Insert(_, _) => 11 * n + 23
    case StoreLock(next) => 3 * n + 4 + Work(n, next)
    case StoreScan(_, todo, _, next) => 3 * |todo| + 3 + Work(n, next)
    case WriteMeta(_, next) => 2 + Work(n, next)
    case RenameMeta(next) => 1 + Work(n, next)
    case CleanStart(_, next) => 5 * n + 9 + Work(n, next)
    case CleanPaths(_, next) => 5 * n + 8 + Work(n, next)
    case CleanRead(_, _, next) => 5 * n + 7 + Work(n, next)
    case CleanLoop(_, _, _, left, _, next) => 3 * |left| + 2 * n + 6 + Work(n, next)
    case ScanDir(_, _, _, next) => 2 * n + 2 + Work(n, next)
    case ScanFiles(files, _, _, next) => 2 * |files| + 1 + Work(n, next)
    case OrphanStart => DirsWork(n, n) + 1
    case OrphanDirs(_, dirs) => DirsWork(n, |dirs|)
    case LoadStart => 3 * n + 3
    case LoadLock(left) => 3 * |left| + 2
    case LoadLoop(_, left) => 3 * |left| + 1
    case LoadInsert(_, _, left) => 3 * |left| + 2
  }

  function DirsWork(n: nat, dirs: nat): nat {
    if dirs == 0 then 1 else 2 * n + 3 + DirsWork(n, dirs - 1)
  }

  /** How many more entries and files the task may bring. */
  function Brings(p: Proc): nat {
    match p
    case WriteTemp(_) => 1
    case RenameTemp(_) => 1
    case Insert(_, _) => 1
    case LoadLock(left) => |left|
    case LoadLoop(_, left) => |left|
    case LoadInsert(_, _, left) => |left| + 1
    case IfExists(_, yes, no) => Max(Brings(yes), Brings(no))
    case Delete(_, next) => Brings(next)
    case _ => 0
  }

  /** How long the lists are that it may write. */
  function Lists(p: Proc): nat {
    match p
    case IfExists(_, yes, no) => Max(Lists(yes), Lists(no))
    case Delete(_, next) => Lists(next)
    case RemoveKey(_, next) => Lists(next)
    case StoreLock(next) => Lists(next)
    case StoreScan(_, todo, listed, next) => Max(|todo| + |listed|, Lists(next))
    case WriteMeta(entries, next) => Max(|entries|, Lists(next))
    case RenameMeta(next) => Lists(next)
    case CleanStart(_, next) => Lists(next)
    case CleanPaths(_, next) => Lists(next)
    case CleanRead(_, _, next) => Lists(next)
    case CleanLoop(_, _, _, left, kept, next) => Max(|left| + |kept|, Lists(next))
    case ScanDir(_, _, _, next) => Lists(next)
    case ScanFiles(_, _, _, next) => Lists(next)
    case _ => 0
  }

  predicate MetaWithin(n: nat, stored: Meta) {
    stored.Some? ==> |stored.value| <= n
  }

  predicate WithinSize(n: nat, w: World, p: Proc) {
    && |w.cache| + Brings(p) <= n && |w.files| + (if p.WriteTemp? then 1 else 0) <= n
    && MetaWithin(n, w.snapshot) && MetaWithin(n, w.metaTemp) && Lists(p) <= n
  }

  /** Task `t`, which still has to do `p`, can go on. */
  predicate GoesOn(config: Config, n: nat, w: World, t: nat, p: Proc) {
    Ready(config, w, p) && WithinSize(n, w, p) && w.lock == if Holds(p) then Some(t) else None
  }

  /** A step that brings the task nearer to its end. */
  ghost predicate Nearer(config: Config, n: nat, w: World, t: nat, p: Proc, w': World, p': Proc) {
    && Exec(config, w, t, p, w', p') && Succeeds(w, p, w', p')
    && GoesOn(config, n, w', t, p') && Work(n, p') < Work(n, p) && w'.tasks == w.tasks && !p'.LoadStart?
  }

  // ---------- One step ----------

  lemma IsNearer(config: Config, n: nat, w: World, t: nat, p: Proc, w': World, p': Proc)
    requires Exec(config, w, t, p, w', p') && Succeeds(w, p, w', p') && w'.tasks == w.tasks
    requires GoesOn(config, n, w', t, p') && Work(n, p') < Work(n, p) && !p'.LoadStart?
    ensures Nearer(config, n, w, t, p, w', p')
  {
    hide Exec, Succeeds, GoesOn, Work;
  }

  lemma IfExistsGoesOn(config: Config, n: nat, w: World, t: nat, p: Proc) returns (p': Proc)
    requires GoesOn(config, n, w, t, p) && p.IfExists?
    ensures Nearer(config, n, w, t, p, w, p')
  {
    p' := if p.path in w.files then p.yes else p.no;
  }

  lemma DeleteGoesOn(config: Config, n: nat, w: World, t: nat, p: Proc) returns (w': World)
    requires GoesOn(config, n, w, t, p) && p.Delete?
    ensures Nearer(config, n, w, t, p, w', p.next)
  {
    w' := w.(files := w.files - {p.path});
    assert GoesOn(config, n, w', t, p.next) && Work(n, p.next) < Work(n, p) by {
      FewerFiles(w.files, {p.path});
      ReadyWithFewerFiles(config, w, w', p.next);
      hide Exec, Succeeds;
    }
    hide GoesOn, Work;
  }

  lemma RemoveKeyGoesOn(config: Config, n: nat, w: World, t: nat, p: Proc) returns (w': World)
    requires GoesOn(config, n, w, t, p) && p.RemoveKey?
    ensures Nearer(config, n, w, t, p, w', p.next)
  {
    w' := w.(cache := w.cache - {p.key});
    FewerEntries(w.cache, {p.key});
    BeginsGoesOn(config, n, w', t, p.next);
  }

  lemma FewerFiles(files: Files, gone: set<FilePath>)
    ensures |files - gone| <= |files|
  {
    assert (files - gone).Keys == files.Keys - gone;
    SubsetIsSmaller(files.Keys - gone, files.Keys);
  }

  lemma FewerEntries(cache: Cache, gone: set<string>)
    ensures |cache - gone| <= |cache|
  {
    assert (cache - gone).Keys == cache.Keys - gone;
    SubsetIsSmaller(cache.Keys - gone, cache.Keys);
  }

  lemma SubsetIsSmaller<T>(fewer: set<T>, more: set<T>)
    requires fewer <= more
    ensures |fewer| <= |more|
  {
    assert more == fewer + (more - fewer);
  }

  lemma ReadyWithFewerFiles(config: Config, w: World, w': World, p: Proc)
    requires Ready(config, w, p) && Continues(p) && w' == w.(files := w'.files)
    ensures Ready(config, w', p)
  {
    match p
    case IfExists(_, yes, no) =>
      ReadyWithFewerFiles(config, w, w', yes);
      ReadyWithFewerFiles(config, w, w', no);
    case Delete(_, next) => ReadyWithFewerFiles(config, w, w', next);
    case _ =>
  }

  lemma BeginsBringsNothing(p: Proc)
    requires Begins(p)
    ensures Brings(p) == 0 && Continues(p)
  {
    match p
    case IfExists(_, yes, no) => BeginsBringsNothing(yes); BeginsBringsNothing(no);
    case Delete(_, next) => BeginsBringsNothing(next);
    case _ =>
  }

  /** What follows may go on with nothing but the lock free. */
  lemma BeginsGoesOn(config: Config, n: nat, w: World, t: nat, next: Proc)
    requires Begins(next) && w.lock.None? && |w.cache| <= n && |w.files| <= n && Lists(next) <= n
    requires MetaWithin(n, w.snapshot) && MetaWithin(n, w.metaTemp)
    ensures GoesOn(config, n, w, t, next) && Continues(next)
  {
    BeginsIsReady(config, w, next);
    BeginsBringsNothing(next);
  }

  lemma MissIsShort(config: Config, key: string, withBucket: bool, n: nat)
    ensures var miss := MissAfter(config, key, withBucket);
      Begins(miss) && Lists(miss) == 0 && Work(n, miss) <= MissWork(n)
  {
    var done := Finished(Found(key, Miss));
    var clean := CleanStart(Some(ShardId(config, key)), done);
    assert Begins(clean) && Lists(clean) == 0 && Work(n, clean) == 5 * n + 9 && Work(n, done) == 0;
  }

  lemma DeleteIfThereIsShort(path: FilePath, next: Proc, n: nat)
    requires Begins(next)
    ensures var p := DeleteIfThere(path, next);
      Begins(p) && Lists(p) == Lists(next) && Work(n, p) == Work(n, next) + 2
  {
    var gone := Delete(path, next);
    assert Begins(gone) && Lists(gone) == Lists(next) && Work(n, gone) == Work(n, next) + 1;
  }

  lemma LookUpGoesOn(config: Config, n: nat, w: World, t: nat, p: Proc) returns (p': Proc)
    requires GoesOn(config, n, w, t, p) && p.LookUp?
    ensures Nearer(config, n, w, t, p, w, p')
  {
    hide MissAfter, Expired, BodyPath, DeleteIfThere;
    var miss := MissAfter(config, p.key, p.withBucket);
    MissIsShort(config, p.key, p.withBucket, n);
    if p.key in w.cache {
      var meta := w.cache[p.key];
      p' := AfterFound(config, p.key, meta, p.withBucket, w.clock.now);
      FoundIsShort(config, n, w, p.key, meta, p.withBucket, miss);
    } else {
      p' := AfterUnknown(config, p.key, p.withBucket);
      UnknownIsShort(n, p.key, BodyPath(config, p.key), miss);
      BeginsGoesOn(config, n, w, t, p');
    }
  }

  lemma FoundIsShort(config: Config, n: nat, w: World, key: string, meta: Metadata, withBucket: bool, miss: Proc)
    requires Begins(miss) && Lists(miss) == 0 && Work(n, miss) <= MissWork(n)
    ensures var path := meta.record.bodyPath;
      var late := RemoveKey(key, DeleteIfThere(path, miss));
      var found := IfExists(path, ReadBody(key, meta, withBucket), RemoveKey(key, miss));
      && Ready(config, w, late) && Lists(late) == 0 && Brings(late) == 0 && !Holds(late)
      && Work(n, late) <= MissWork(n) + 3
      && Ready(config, w, found) && Lists(found) == 0 && Brings(found) == 0 && !Holds(found)
      && Work(n, found) <= MissWork(n) + 4
  {
    var path := meta.record.bodyPath;
    DeleteIfThereIsShort(path, miss, n);
    hide DeleteIfThere, MissWork;
    var read, remove := ReadBody(key, meta, withBucket), RemoveKey(key, miss);
    assert Ready(config, w, remove) && Lists(remove) == 0 && Brings(remove) == 0 && !Holds(remove);
    assert Work(n, remove) == 1 + Work(n, miss);
    assert Ready(config, w, read) && Lists(read) == 0 && Brings(read) == 0 && !Holds(read);
  }

  lemma UnknownIsShort(n: nat, key: string, path: FilePath, miss: Proc)
    requires Begins(miss) && Lists(miss) == 0 && Work(n, miss) <= MissWork(n)
    ensures var p := IfExists(path, Delete(path, miss), Finished(Found(key, Miss)));
      Begins(p) && Lists(p) == 0 && Work(n, p) <= MissWork(n) + 2
  {
    hide MissWork;
    var gone, done := Delete(path, miss), Finished(Found(key, Miss));
    assert Begins(gone) && Lists(gone) == 0 && Work(n, gone) == Work(n, miss) + 1;
    assert Begins(done) && Lists(done) == 0 && Work(n, done) == 0;
  }

  lemma ReadBodyGoesOn(config: Config, n: nat, w: World, t: nat, p: Proc) returns (p': Proc)
    requires GoesOn(config, n, w, t, p) && p.ReadBody?
    ensures Nearer(config, n, w, t, p, w, p')
  {
    MissIsShort(config, p.key, p.withBucket, n);
    hide MissAfter, Decode;
    var path, miss, record := p.meta.record.bodyPath, MissAfter(config, p.key, p.withBucket), p.meta.record;
    if path in w.files && Decode(config.codec, w.files[path]).Some? {
      var body := Decode(config.codec, w.files[path]).value;
      p' := Finished(Found(p.key, Hit(record.headers, record.status, body, record.originalEncoding)));
    } else {
      var gone := Delete(path, miss);
      assert Begins(gone) && Lists(gone) == 0 && Work(n, gone) == Work(n, miss) + 1;
      p' := RemoveKey(p.key, if path in w.files then gone else miss);
    }
    BeginsGoesOn(config, n, w, t, p');
  }

  // ---------- Puts ----------

  lemma WriteGoesOn(config: Config, n: nat, w: World, t: nat, p: Proc) returns (w': World)
    requires GoesOn(config, n, w, t, p) && p.WriteTemp?
    ensures Nearer(config, n, w, t, p, w', RenameTemp(p.job))
  {
    hide Exec, Succeeds, GoesOn, Work, Nearer, BodyPath;
    var temp := TempOf(BodyPath(config, p.job.key));
    w' := w.(files := w.files[temp := p.job.raw]);
    WriteSteps(config, w, t, p);
    WrittenGoesOn(config, n, w, t, p);
    IsNearer(config, n, w, t, p, w', RenameTemp(p.job));
  }

  lemma WriteSteps(config: Config, w: World, t: nat, p: Proc)
    requires p.WriteTemp?
    ensures var w' := w.(files := w.files[TempOf(BodyPath(config, p.job.key)) := p.job.raw]);
      Exec(config, w, t, p, w', RenameTemp(p.job)) && Succeeds(w, p, w', RenameTemp(p.job))
  {
    hide BodyPath;
  }

  lemma WrittenGoesOn(config: Config, n: nat, w: World, t: nat, p: Proc)
    requires GoesOn(config, n, w, t, p) && p.WriteTemp?
    ensures var w' := w.(files := w.files[TempOf(BodyPath(config, p.job.key)) := p.job.raw]);
      GoesOn(config, n, w', t, RenameTemp(p.job)) && Work(n, RenameTemp(p.job)) < Work(n, p)
  {
    hide BodyPath;
    var temp := TempOf(BodyPath(config, p.job.key));
    OneMoreFile(w.files, temp, p.job.raw);
  }

  lemma OneMoreFile(files: Files, f: FilePath, raw: Bytes)
    ensures |files[f := raw]| <= |files| + 1
  {
    var more := files[f := raw];
    assert more.Keys == files.Keys + {f} && |more| == |more.Keys| && |files| == |files.Keys|;
  }

  function RenamedFiles(config: Config, w: World, job: PutRecord): Files
    requires TempOf(BodyPath(config, job.key)) in w.files
  {
    var path := BodyPath(config, job.key);
    (w.files - {TempOf(path)})[path := w.files[TempOf(path)]]
  }

  lemma RenameGoesOn(config: Config, n: nat, w: World, t: nat, p: Proc) returns (w': World)
    requires GoesOn(config, n, w, t, p) && p.RenameTemp?
    ensures Nearer(config, n, w, t, p, w', Insert(p.job, w.clock.now))
  {
    w' := w.(files := RenamedFiles(config, w, p.job));
    hide Exec, Succeeds, GoesOn, Work, Nearer, BodyPath, RenamedFiles;
    RenameSteps(config, w, t, p);
    RenamedGoesOn(config, n, w, t, p);
    IsNearer(config, n, w, t, p, w', Insert(p.job, w.clock.now));
  }

  lemma RenameSteps(config: Config, w: World, t: nat, p: Proc)
    requires p.RenameTemp? && TempOf(BodyPath(config, p.job.key)) in w.files
    ensures var w', p' := w.(files := RenamedFiles(config, w, p.job)), Insert(p.job, w.clock.now);
      Exec(config, w, t, p, w', p') && Succeeds(w, p, w', p')
  {
    hide BodyPath;
  }

  lemma RenamedGoesOn(config: Config, n: nat, w: World, t: nat, p: Proc)
    requires GoesOn(config, n, w, t, p) && p.RenameTemp?
    ensures var w', p' := w.(files := RenamedFiles(config, w, p.job)), Insert(p.job, w.clock.now);
      GoesOn(config, n, w', t, p') && Work(n, p') < Work(n, p)
  {
    hide BodyPath;
    var path := BodyPath(config, p.job.key);
    var fewer := w.files - {TempOf(path)};
    OneMoreFile(fewer, path, w.files[TempOf(path)]);
    assert fewer.Keys == w.files.Keys - {TempOf(path)} && |fewer| == |fewer.Keys|;
    assert |w.files.Keys - {TempOf(path)}| == |w.files.Keys| - 1;
  }

  lemma AfterPutIsShort(config: Config, job: PutRecord, path: FilePath, n: nat)
    ensures var after := StoreAfterPut(config, job);
      var rest := DeleteIfThere(path, Persist(config, job.key, job.withBucket, after));
      && Begins(after) && Lists(after) == 0 && Work(n, after) <= 3 * n + 4
      && Begins(rest) && Lists(rest) == 0 && Work(n, rest) <= 11 * n + 19
  {
    var done, after := Finished(PutEnded(Stored)), StoreAfterPut(config, job);
    assert Begins(done) && Lists(done) == 0 && Work(n, done) == 0;
    var clean := CleanStart(Some(ShardId(config, job.key)), after);
    assert Begins(clean) && Lists(clean) == 0 && Work(n, clean) == 5 * n + 9 + Work(n, after);
    DeleteIfThereIsShort(path, Persist(config, job.key, job.withBucket, after), n);
  }

  lemma InsertGoesOn(config: Config, n: nat, w: World, t: nat, p: Proc) returns (w': World, p': Proc)
    requires GoesOn(config, n, w, t, p) && p.Insert?
    ensures Nearer(config, n, w, t, p, w', p')
  {
    var job, meta := p.job, Metadata(RecordOf(config, p.job), p.createdAt);
    hide RecordOf, StoreAfterPut, Persist, DeleteIfThere, MustEvict;
    var cache := w.cache;
    p' := StoreAfterPut(config, job);
    AfterPutIsShort(config, job, BodyPath(config, job.key), n);
    if MustEvict(config, w.cache, job.key) {
      var victim := OldestToEvict(config, w.cache, job.key);
      AfterPutIsShort(config, job, w.cache[victim].record.bodyPath, n);
      cache := w.cache - {victim};
      p' := DeleteIfThere(
        w.cache[victim].record.bodyPath, Persist(config, job.key, job.withBucket, StoreAfterPut(config, job)));
      FewerEntries(w.cache, {victim});
    }
    w' := w.(cache := cache[job.key := meta]);
    InsertedGoesOn(config, n, w, t, p, cache, meta, p');
    hide GoesOn, Work, Begins, Lists, BodyPath;
    assert Exec(config, w, t, p, w', p') && Succeeds(w, p, w', p');
    hide Exec, Succeeds;
  }

  lemma InsertedGoesOn(
    config: Config, n: nat, w: World, t: nat, p: Proc, cache: Cache, meta: Metadata, p': Proc)
    requires GoesOn(config, n, w, t, p) && p.Insert? && |cache| <= |w.cache|
    requires Begins(p') && Lists(p') == 0 && Work(n, p') <= 11 * n + 19
    ensures GoesOn(config, n, w.(cache := cache[p.job.key := meta]), t, p') && Work(n, p') < Work(n, p)
    ensures Continues(p')
  {
    OneMoreEntry(cache, p.job.key, meta);
    var w' := w.(cache := cache[p.job.key := meta]);
    assert Work(n, p) == 11 * n + 23;
    hide Begins, Lists, Work;
    BeginsGoesOn(config, n, w', t, p');
  }

  lemma OneMoreEntry(cache: Cache, key: string, meta: Metadata)
    ensures |cache[key := meta]| <= |cache| + 1
  {
    var more := cache[key := meta];
    assert more.Keys == cache.Keys + {key} && |more| == |more.Keys| && |cache| == |cache.Keys|;
  }

  lemma OldestToEvict(config: Config, cache: Cache, key: string) returns (victim: string)
    requires MustEvict(config, cache, key)
    ensures victim in cache && IsOldest(cache, victim)
  {
    victim := CacheCollision.SomeOldest(cache);
  }

  // ---------- store ----------

  lemma StoreLockGoesOn(config: Config, n: nat, w: World, t: nat, p: Proc) returns (w': World, p': Proc)
    requires GoesOn(config, n, w, t, p) && p.StoreLock?
    ensures Nearer(config, n, w, t, p, w', p')
  {
    w', p' := w.(lock := Some(t)), StoreScan(w.clock.now, w.cache.Keys, [], p.next);
    assert |w.cache.Keys| == |w.cache|;
  }

  lemma ScanOverGoesOn(config: Config, n: nat, w: World, t: nat, p: Proc) returns (w': World, p': Proc)
    requires GoesOn(config, n, w, t, p) && p.StoreScan? && p.todo == {}
    ensures Nearer(config, n, w, t, p, w', p')
  {
    w', p' := w.(lock := None), WriteMeta(p.listed, p.next);
    assert Work(n, p') < Work(n, p);
    assert GoesOn(config, n, w', t, p') by {
      hide Exec, Work;
      BeginsBringsNothing(p.next);
    }
    hide GoesOn, Work;
  }

  lemma ScanOneGoesOn(config: Config, n: nat, w: World, t: nat, p: Proc) returns (p': Proc)
    requires GoesOn(config, n, w, t, p) && p.StoreScan? && p.todo != {}
    ensures Nearer(config, n, w, t, p, w, p')
  {
    hide Scanned;
    var k :| k in p.todo;
    assert k in w.cache;
    p' := Scanned(p, k, w.cache[k]);
    ScannedIsShort(config, n, w, p, k);
    assert Lists(p) <= n && Holds(p);
    LockedGoesOn(config, n, w, t, p, p');
    hide GoesOn, Work, Lists, Ready;
  }

  lemma LockedGoesOn(config: Config, n: nat, w: World, t: nat, p: Proc, p': Proc)
    requires GoesOn(config, n, w, t, p) && Holds(p) && Holds(p') && Ready(config, w, p') && !p'.WriteTemp?
    requires Brings(p') <= Brings(p) && Lists(p') <= Lists(p)
    ensures GoesOn(config, n, w, t, p')
  {
    hide Ready, Lists, Brings, Holds;
  }

  lemma ScannedIsShort(config: Config, n: nat, w: World, p: Proc, k: string)
    requires p.StoreScan? && k in p.todo && k in w.cache && Ready(config, w, p)
    ensures var p' := Scanned(p, k, w.cache[k]);
      Ready(config, w, p') && Holds(p') && Brings(p') == 0 && !p'.WriteTemp? && Lists(p') <= Lists(p)
      && Work(n, p') < Work(n, p)
  {
    hide Expired;
    var rest, more := p.todo - {k}, p.listed + [Entry(k, w.cache[k])];
    var scan, scanned := StoreScan(p.now, rest, p.listed, p.next), StoreScan(p.now, rest, more, p.next);
    assert |rest| == |p.todo| - 1;
    assert Ready(config, w, scan) && Holds(scan) && Brings(scan) == 0 && Lists(scan) <= Lists(p);
    assert Work(n, scan) == Work(n, p) - 3;
    var gone := Delete(w.cache[k].record.bodyPath, scan);
    assert Ready(config, w, gone) && Holds(gone) && Brings(gone) == 0 && Lists(gone) == Lists(scan);
    assert Work(n, gone) == Work(n, scan) + 1;
    assert Ready(config, w, scanned) && Holds(scanned) && Lists(scanned) <= Lists(p);
  }

  lemma WriteMetaGoesOn(config: Config, n: nat, w: World, t: nat, p: Proc) returns (w': World, p': Proc)
    requires GoesOn(config, n, w, t, p) && (p.WriteMeta? || p.RenameMeta?)
    ensures Nearer(config, n, w, t, p, w', p')
  {
    hide WriteEntries;
    if p.WriteMeta? {
      w', p' := w.(metaTemp := Some(WriteEntries(p.entries, w.clock))), RenameMeta(p.next);
    } else {
      w', p' := w.(snapshot := w.metaTemp, metaTemp := None), p.next;
      BeginsGoesOn(config, n, w', t, p');
    }
  }

  // ---------- The cleaners ----------

  lemma CleanGoesOn(config: Config, n: nat, w: World, t: nat, p: Proc) returns (p': Proc)
    requires GoesOn(config, n, w, t, p) && (p.CleanStart? || p.CleanPaths? || p.CleanRead?)
    ensures Nearer(config, n, w, t, p, w, p')
  {
    assert w.lock.None?;
    hide Exec, Succeeds, GoesOn, Work, Nearer, AfterClean;
    p' := AfterClean(w, p);
    AfterCleanSteps(config, w, t, p);
    AfterCleanGoesOn(config, n, w, t, p);
    IsNearer(config, n, w, t, p, w, p');
  }

  lemma AfterCleanSteps(config: Config, w: World, t: nat, p: Proc)
    requires (p.CleanStart? || p.CleanPaths? || p.CleanRead?) && w.lock.None?
    ensures Exec(config, w, t, p, w, AfterClean(w, p)) && Succeeds(w, p, w, AfterClean(w, p))
  {
    hide ReadEntries, Paths;
  }

  lemma AfterCleanGoesOn(config: Config, n: nat, w: World, t: nat, p: Proc)
    requires GoesOn(config, n, w, t, p) && (p.CleanStart? || p.CleanPaths? || p.CleanRead?)
    ensures var p' := AfterClean(w, p);
      GoesOn(config, n, w, t, p') && Work(n, p') < Work(n, p) && !p'.LoadStart?
  {
    hide ReadEntries, Paths, Readable;
    BeginsGoesOn(config, n, w, t, p.next);
  }

  function AfterClean(w: World, p: Proc): Proc
    requires p.CleanStart? || p.CleanPaths? || p.CleanRead?
  {
    match p
    case CleanStart(shard, next) => if w.snapshot.Some? then CleanPaths(shard, next) else next
    case CleanPaths(shard, next) => CleanRead(shard, Paths(w.cache), next)
    case CleanRead(shard, valid, next) =>
      if w.snapshot.Some? && Readable(w.snapshot.value, w.clock) then
        CleanLoop(shard, valid, w.clock.now, ReadEntries(w.snapshot.value, w.clock), [], next)
      else next
  }

  lemma CleanLoopGoesOn(config: Config, n: nat, w: World, t: nat, p: Proc) returns (p': Proc)
    requires GoesOn(config, n, w, t, p) && p.CleanLoop?
    ensures Nearer(config, n, w, t, p, w, p')
  {
    hide Expired, ShardId, ShardDir, DeleteIfThere;
    if p.left == [] {
      var write := WriteMeta(p.kept, p.next);
      p' := if p.shard.Some? then ScanDir(ShardDir(p.shard.value), p.valid, false, write) else write;
      CleanedUpIsShort(config, n, w, p, if p.shard.Some? then ShardDir(p.shard.value) else "");
    } else {
      var e := p.left[0];
      var path := e.meta.record.bodyPath;
      var keep := CleanLoop(p.shard, p.valid, p.now, p.left[1..], p.kept + [e], p.next);
      var drop := CleanLoop(p.shard, p.valid, p.now, p.left[1..], p.kept, p.next);
      CleanedIsShort(config, n, w, p, path, keep, drop);
      p' := if p.shard.Some? && ShardId(config, e.key) != p.shard.value then keep
            else if Expired(e.meta, p.now) then (if path in p.valid then drop else DeleteIfThere(path, drop))
            else IfExists(path, keep, drop);
    }
    ShorterGoesOn(config, n, w, t, p, p');
    hide GoesOn, Work, Shorter;
  }

  lemma ShorterGoesOn(config: Config, n: nat, w: World, t: nat, p: Proc, p': Proc)
    requires GoesOn(config, n, w, t, p) && !Holds(p) && Shorter(config, n, w, p, p')
    ensures GoesOn(config, n, w, t, p') && Work(n, p') < Work(n, p) && Continues(p')
  {
    hide Ready, Lists, Brings, Work;
  }

  lemma CleanedUpIsShort(config: Config, n: nat, w: World, p: Proc, dir: string)
    requires p.CleanLoop? && Ready(config, w, p)
    ensures var write := WriteMeta(p.kept, p.next);
      Shorter(config, n, w, p, write) && Shorter(config, n, w, p, ScanDir(dir, p.valid, false, write))
  {
    var write := WriteMeta(p.kept, p.next);
    assert Begins(write) && Lists(write) <= Lists(p) && Work(n, write) == Work(n, p.next) + 2;
  }

  predicate Shorter(config: Config, n: nat, w: World, p: Proc, p': Proc) {
    && Ready(config, w, p') && !Holds(p') && Brings(p') == 0 && Continues(p') && Lists(p') <= Lists(p)
    && Work(n, p') < Work(n, p)
  }

  lemma CleanedIsShort(config: Config, n: nat, w: World, p: Proc, path: FilePath, keep: Proc, drop: Proc)
    requires p.CleanLoop? && p.left != [] && Ready(config, w, p)
    requires keep == CleanLoop(p.shard, p.valid, p.now, p.left[1..], p.kept + [p.left[0]], p.next)
    requires drop == CleanLoop(p.shard, p.valid, p.now, p.left[1..], p.kept, p.next)
    ensures Shorter(config, n, w, p, keep) && Shorter(config, n, w, p, drop)
    ensures Shorter(config, n, w, p, DeleteIfThere(path, drop)) && Shorter(config, n, w, p, IfExists(path, keep, drop))
  {
    assert Work(n, keep) == Work(n, p) - 3 && Work(n, drop) == Work(n, p) - 3;
    assert Lists(keep) == Lists(p) && Lists(drop) <= Lists(p);
    assert Shorter(config, n, w, p, keep) && Shorter(config, n, w, p, drop);
    var gone := Delete(path, drop);
    assert Work(n, gone) == Work(n, p) - 2 && Shorter(config, n, w, p, gone);
  }

  // ---------- The scans ----------

  lemma ScanDirGoesOn(config: Config, n: nat, w: World, t: nat, p: Proc) returns (p': Proc)
    requires GoesOn(config, n, w, t, p) && p.ScanDir?
    ensures Nearer(config, n, w, t, p, w, p')
  {
    var listed := InDir(w.files, p.dir);
    SubsetIsSmaller(listed, w.files.Keys);
    p' := ScanFiles(listed, p.valid, p.sweepTemps, p.next);
    assert GoesOn(config, n, w, t, p') && Work(n, p') < Work(n, p) by {
      BeginsGoesOn(config, n, w, t, p.next);
    }
    hide GoesOn, Work;
  }

  lemma ScanFilesGoesOn(config: Config, n: nat, w: World, t: nat, p: Proc) returns (p': Proc)
    requires GoesOn(config, n, w, t, p) && p.ScanFiles?
    ensures Nearer(config, n, w, t, p, w, p')
  {
    if p.files == {} {
      p' := p.next;
      BeginsGoesOn(config, n, w, t, p.next);
      hide GoesOn;
    } else {
      var f :| f in p.files;
      var rest := ScanFiles(p.files - {f}, p.valid, p.sweepTemps, p.next);
      p' := if (f.ext == BIN && f !in p.valid) || (p.sweepTemps && f.ext == TMP) then Delete(f, rest) else rest;
      FileScannedGoesOn(config, n, w, t, p, f);
      hide GoesOn, Work;
    }
  }

  lemma FileScannedGoesOn(config: Config, n: nat, w: World, t: nat, p: Proc, f: FilePath)
    requires GoesOn(config, n, w, t, p) && p.ScanFiles? && f in p.files
    ensures var rest := ScanFiles(p.files - {f}, p.valid, p.sweepTemps, p.next);
      && GoesOn(config, n, w, t, rest) && Work(n, rest) < Work(n, p)
      && GoesOn(config, n, w, t, Delete(f, rest)) && Work(n, Delete(f, rest)) < Work(n, p)
  {
    var rest := ScanFiles(p.files - {f}, p.valid, p.sweepTemps, p.next);
    assert |p.files - {f}| == |p.files| - 1;
    assert Ready(config, w, rest) && Work(n, rest) == Work(n, p) - 2;
  }

  lemma {:induction false} FewerDirsLessWork(n: nat, dirs: nat)
    requires dirs <= n
    ensures DirsWork(n, dirs) <= DirsWork(n, n)
    decreases n - dirs
  {
    if dirs < n {
      FewerDirsLessWork(n, dirs + 1);
    }
  }

  lemma {:induction false} DirsAreFewer(files: Files, dirs: set<string>)
    requires forall d :: d in dirs ==> exists f :: f in files && f.dir == d
    ensures |dirs| <= |files|
    decreases |files|
  {
    if dirs != {} {
      var d :| d in dirs;
      var f :| f in files && f.dir == d;
      var rest := files - {f};
      assert rest.Keys == files.Keys - {f} && |files.Keys| == |files| && |rest.Keys| == |rest|;
      forall e | e in dirs - {d} ensures exists g :: g in rest && g.dir == e {
        var g :| g in files && g.dir == e;
        assert g in rest;
      }
      DirsAreFewer(rest, dirs - {d});
    }
  }

  lemma OrphanStartGoesOn(config: Config, n: nat, w: World, t: nat, p: Proc) returns (p': Proc)
    requires GoesOn(config, n, w, t, p) && p.OrphanStart?
    ensures Nearer(config, n, w, t, p, w, p')
  {
    hide Paths, IsShardDir;
    var dirs := set f | f in w.files && IsShardDir(f.dir) :: f.dir;
    p' := OrphanDirs(Paths(w.cache), dirs);
    assert GoesOn(config, n, w, t, p') && Work(n, p') < Work(n, p) by {
      DirsAreFewer(w.files, dirs);
      FewerDirsLessWork(n, |dirs|);
    }
    hide GoesOn, Work;
  }

  lemma OrphanDirsGoesOn(config: Config, n: nat, w: World, t: nat, p: Proc) returns (p': Proc)
    requires GoesOn(config, n, w, t, p) && p.OrphanDirs?
    ensures Nearer(config, n, w, t, p, w, p')
  {
    if p.dirs == {} {
      p' := Finished(Swept);
      assert GoesOn(config, n, w, t, p') && Work(n, p') < Work(n, p);
    } else {
      var dir :| dir in p.dirs;
      p' := ScanDir(dir, p.valid, true, OrphanDirs(p.valid, p.dirs - {dir}));
      OneDirGoesOn(config, n, w, t, p, dir);
    }
    hide GoesOn, Work;
  }

  lemma OneDirGoesOn(config: Config, n: nat, w: World, t: nat, p: Proc, dir: string)
    requires GoesOn(config, n, w, t, p) && p.OrphanDirs? && dir in p.dirs
    ensures var p' := ScanDir(dir, p.valid, true, OrphanDirs(p.valid, p.dirs - {dir}));
      GoesOn(config, n, w, t, p') && Work(n, p') < Work(n, p)
  {
    var rest := OrphanDirs(p.valid, p.dirs - {dir});
    assert |p.dirs - {dir}| == |p.dirs| - 1;
    assert Begins(rest) && Lists(rest) == 0 && Work(n, rest) == Work(n, p) - (2 * n + 3);
  }

  // ---------- load ----------

  lemma LoadLockGoesOn(config: Config, n: nat, w: World, t: nat, p: Proc) returns (w': World, p': Proc)
    requires GoesOn(config, n, w, t, p) && p.LoadLock?
    ensures Nearer(config, n, w, t, p, w', p')
  {
    w', p' := w.(lock := Some(t)), LoadLoop(w.clock.now, p.left);
    assert GoesOn(config, n, w', t, p') && Work(n, p') < Work(n, p);
    hide GoesOn, Work;
  }

  lemma LoadInsertGoesOn(config: Config, n: nat, w: World, t: nat, p: Proc) returns (w': World, p': Proc)
    requires GoesOn(config, n, w, t, p) && p.LoadInsert?
    ensures Nearer(config, n, w, t, p, w', p')
  {
    w', p' := w.(cache := w.cache[p.entry.key := p.entry.meta]), LoadLoop(p.now, p.left);
    OneMoreEntry(w.cache, p.entry.key, p.entry.meta);
    assert Work(n, p') < Work(n, p);
    assert GoesOn(config, n, w', t, p') by { hide Exec, Work; }
    hide GoesOn, Work;
  }

  lemma LoadStartGoesOn(config: Config, n: nat, w: World, t: nat, p: Proc) returns (p': Proc)
    requires GoesOn(config, n, w, t, p) && p.LoadStart?
    requires w.snapshot.Some? ==> |w.cache| + |w.snapshot.value| <= n
    ensures Nearer(config, n, w, t, p, w, p')
  {
    hide ReadEntries;
    if w.snapshot.Some? && Readable(w.snapshot.value, w.clock) {
      p' := LoadLock(ReadEntries(w.snapshot.value, w.clock));
    } else {
      p' := Finished(Loaded);
    }
    assert GoesOn(config, n, w, t, p') && Work(n, p') < Work(n, p);
    hide GoesOn, Work;
  }

  lemma LoadLoopGoesOn(config: Config, n: nat, w: World, t: nat, p: Proc) returns (w': World, p': Proc)
    requires GoesOn(config, n, w, t, p) && p.LoadLoop?
    ensures Nearer(config, n, w, t, p, w', p')
  {
    hide Expired, DeleteIfThere;
    if p.left == [] {
      w', p' := w.(lock := None), Finished(Loaded);
      assert GoesOn(config, n, w', t, p') && Work(n, p') < Work(n, p);
    } else {
      var e, rest := p.left[0], LoadLoop(p.now, p.left[1..]);
      var path, insert := e.meta.record.bodyPath, LoadInsert(e, p.now, p.left[1..]);
      w', p' := w, if Expired(e.meta, p.now) then DeleteIfThere(path, rest) else IfExists(path, insert, rest);
      LoadedIsShort(config, n, w, t, p, path, insert, rest);
    }
    hide GoesOn, Work;
  }

  lemma LoadedIsShort(
    config: Config, n: nat, w: World, t: nat, p: Proc, path: FilePath, insert: Proc, rest: Proc)
    requires GoesOn(config, n, w, t, p) && p.LoadLoop? && p.left != []
    requires insert == LoadInsert(p.left[0], p.now, p.left[1..]) && rest == LoadLoop(p.now, p.left[1..])
    ensures var late, found := DeleteIfThere(path, rest), IfExists(path, insert, rest);
      && GoesOn(config, n, w, t, late) && Work(n, late) < Work(n, p)
      && GoesOn(config, n, w, t, found) && Work(n, found) < Work(n, p)
  {
    assert Ready(config, w, rest) && Holds(rest) && Lists(rest) == 0 && Brings(rest) == |p.left| - 1;
    assert Ready(config, w, insert) && Holds(insert) && Lists(insert) == 0 && Brings(insert) == |p.left|;
    assert Work(n, rest) == Work(n, p) - 3 && Work(n, insert) == Work(n, p) - 2;
    var gone := Delete(path, rest);
    assert Ready(config, w, gone) && Holds(gone) && Lists(gone) == 0 && Brings(gone) == Brings(rest);
    assert Work(n, gone) == Work(n, p) - 2;
  }

  // ---------- Whole runs ----------

  lemma OtherStepGoesOn(config: Config, n: nat, w: World, t: nat, p: Proc) returns (w': World, p': Proc)
    requires GoesOn(config, n, w, t, p) && !p.Finished? && !p.LoadStart?
    ensures Nearer(config, n, w, t, p, w', p')
  {
    hide GoesOn, Nearer, Work;
    w' := w;
    match p
    case IfExists(_, _, _) => p' := IfExistsGoesOn(config, n, w, t, p);
    case Delete(_, next) => p' := next; w' := DeleteGoesOn(config, n, w, t, p);
    case RemoveKey(_, next) => p' := next; w' := RemoveKeyGoesOn(config, n, w, t, p);
    case LookUp(_, _) => p' := LookUpGoesOn(config, n, w, t, p);
    case ReadBody(_, _, _) => p' := ReadBodyGoesOn(config, n, w, t, p);
    case WriteTemp(job) => p' := RenameTemp(job); w' := WriteGoesOn(config, n, w, t, p);
    case RenameTemp(job) => p' := Insert(job, w.clock.now); w' := RenameGoesOn(config, n, w, t, p);
    case Insert(_, _) => w', p' := InsertGoesOn(config, n, w, t, p);
    case StoreLock(_) => w', p' := StoreLockGoesOn(config, n, w, t, p);
    case StoreScan(_, todo, _, _) =>
      if todo == {} { w', p' := ScanOverGoesOn(config, n, w, t, p); }
      else { p' := ScanOneGoesOn(config, n, w, t, p); }
    case WriteMeta(_, _) => w', p' := WriteMetaGoesOn(config, n, w, t, p);
    case RenameMeta(_) => w', p' := WriteMetaGoesOn(config, n, w, t, p);
    case CleanStart(_, _) => p' := CleanGoesOn(config, n, w, t, p);
    case CleanPaths(_, _) => p' := CleanGoesOn(config, n, w, t, p);
    case CleanRead(_, _, _) => p' := CleanGoesOn(config, n, w, t, p);
    case CleanLoop(_, _, _, _, _, _) => p' := CleanLoopGoesOn(config, n, w, t, p);
    case ScanDir(_, _, _, _) => p' := ScanDirGoesOn(config, n, w, t, p);
    case ScanFiles(_, _, _, _) => p' := ScanFilesGoesOn(config, n, w, t, p);
    case OrphanStart => p' := OrphanStartGoesOn(config, n, w, t, p);
    case OrphanDirs(_, _) => p' := OrphanDirsGoesOn(config, n, w, t, p);
    case LoadLock(_) => w', p' := LoadLockGoesOn(config, n, w, t, p);
    case LoadLoop(_, _) => w', p' := LoadLoopGoesOn(config, n, w, t, p);
    case LoadInsert(_, _, _) => w', p' := LoadInsertGoesOn(config, n, w, t, p);
  }

  lemma {:induction false} GoesToTheEnd(config: Config, n: nat, w: World, t: nat, p: Proc)
    returns (run: seq<World>, result: TaskResult)
    requires t in w.tasks && w.tasks[t] == p && GoesOn(config, n, w, t, p)
    requires p.LoadStart? && w.snapshot.Some? ==> |w.cache| + |w.snapshot.value| <= n
    ensures RunsAlone(config, run, t, p, result) && run[0] == w
    decreases Work(n, p)
  {
    hide Exec, Succeeds, Ready, WithinSize, Work;
    if p.Finished? {
      run, result := [w], p.result;
    } else {
      var x, p' := w, p;
      if p.LoadStart? {
        p' := LoadStartGoesOn(config, n, w, t, p);
      } else {
        x, p' := OtherStepGoesOn(config, n, w, t, p);
      }
      var w' := x.(tasks := w.tasks[t := p']);
      SameButTasks(config, n, x, w', t, p');
      assert AloneStep(config, w, t, w');
      var rest;
      rest, result := GoesToTheEnd(config, n, w', t, p');
      run := [w] + rest;
      forall i | 0 <= i < |run| - 1 ensures AloneStepAt(config, run, t, i) {
        if i > 0 {
          assert AloneStepAt(config, rest, t, i - 1);
        }
      }
    }
  }

  lemma SameButTasks(config: Config, n: nat, x: World, w': World, t: nat, p: Proc)
    requires GoesOn(config, n, x, t, p) && w' == x.(tasks := w'.tasks)
    ensures GoesOn(config, n, w', t, p)
  {
    hide Lists, Brings, Holds;
    ReadyOnStorage(config, x, w', p);
  }

  lemma ReadyOnStorage(config: Config, w: World, w': World, p: Proc)
    requires Ready(config, w, p) && w' == w.(tasks := w'.tasks)
    ensures Ready(config, w', p)
  {
    match p
    case IfExists(_, yes, no) => ReadyOnStorage(config, w, w', yes); ReadyOnStorage(config, w, w', no);
    case Delete(_, next) => ReadyOnStorage(config, w, w', next);
    case _ =>
  }

  /** The operations that a task can begin with. */
  predicate Operation(p: Proc) {
    || p.LookUp? || p.WriteTemp? || p.OrphanStart? || p.LoadStart?
    || (p.StoreLock? && Begins(p)) || (p.CleanStart? && Begins(p))
  }

  /** Every operation that is left alone while the lock is free comes to its end. */
  lemma OperationEnds(config: Config, w: World, t: nat) returns (run: seq<World>, result: TaskResult)
    requires t in w.tasks && Operation(w.tasks[t]) && w.lock.None?
    ensures RunsAlone(config, run, t, w.tasks[t], result) && run[0] == w
  {
    var p := w.tasks[t];
    var listed := if w.snapshot.Some? then |w.snapshot.value| else 0;
    var temp := if w.metaTemp.Some? then |w.metaTemp.value| else 0;
    var n := |w.cache| + |w.files| + listed + temp + Lists(p) + 1;
    assert GoesOn(config, n, w, t, p) by {
      if p.StoreLock? || p.CleanStart? { BeginsGoesOn(config, n, w, t, p); }
    }
    run, result := GoesToTheEnd(config, n, w, t, p);
  }
}
