/** Hits in single runs, with any interleaving of everything else: as long as lookups and puts of a key keep out of
    each other's way, each hit for it has the headers, the status and the body of one put. */
module CacheUndisturbed {
  import opened Wrappers
  import opened CacheTypes
  import opened CacheFacts
  import opened CacheSpec
  import opened CacheTasks
  import opened CacheTaskSafety
  import opened CacheTaskCapacity

  // ---------- What a task has seen of a key ----------

  /** An entry of the key that a lookup has found and may still read the body for, or its hit. */
  datatype Sight = OfEntry(meta: Metadata) | OfHit(hit: Lookup)

  /** What is in sight for a task. */
  function Views(p: Proc, key: string): set<Sight> {
    match p
    case Finished(result) =>
      if result.Found? && result.key == key && result.result.Hit? then {OfHit(result.result)} else {}
    case ReadBody(k, meta, _) => if k == key then {OfEntry(meta)} else {}
    case IfExists(_, yes, no) => Views(yes, key) + Views(no, key)
    case Delete(_, next) => Views(next, key)
    case RemoveKey(_, next) => Views(next, key)
    case StoreLock(next) => Views(next, key)
    case StoreScan(_, _, _, next) => Views(next, key)
    case WriteMeta(_, next) => Views(next, key)
    case RenameMeta(next) => Views(next, key)
    case CleanStart(_, next) => Views(next, key)
    case CleanPaths(_, next) => Views(next, key)
    case CleanRead(_, _, next) => Views(next, key)
    case CleanLoop(_, _, _, _, _, next) => Views(next, key)
    case ScanDir(_, _, _, next) => Views(next, key)
    case ScanFiles(_, _, _, next) => Views(next, key)
    case _ => {}
  }

  /** What comes into sight in a step. */
  function Seen(config: Config, w: World, p: Proc, key: string): set<Sight> {
    if p.LookUp? && p.key == key && key in w.cache then {OfEntry(w.cache[key])}
    else if p.ReadBody? && p.key == key && p.meta.record.bodyPath in w.files then
      var record := p.meta.record;
      match Decode(config.codec, w.files[record.bodyPath])
      case Some(body) => {OfHit(Hit(record.headers, record.status, body, record.originalEncoding))}
      case None => {}
    else {}
  }

  lemma MissSeesNothing(config: Config, k: string, withBucket: bool, key: string)
    ensures Views(MissAfter(config, k, withBucket), key) == {}
  {
    var done := Finished(Found(k, Miss));
    assert Views(done, key) == {};
    assert Views(CleanStart(Some(ShardId(config, k)), done), key) == {};
  }

  lemma PersistSeesNothing(config: Config, k: string, withBucket: bool, next: Proc, key: string)
    requires Views(next, key) == {}
    ensures Views(Persist(config, k, withBucket, next), key) == {}
  {
    assert Views(CleanStart(Some(ShardId(config, k)), next), key) == {};
  }

  lemma DeleteIfThereSees(path: FilePath, next: Proc, key: string)
    ensures Views(DeleteIfThere(path, next), key) == Views(next, key)
  {
    assert Views(Delete(path, next), key) == Views(next, key);
  }

  lemma LookUpSees(config: Config, w: World, p: Proc, w': World, p': Proc, key: string)
    requires p.LookUp? && LookUpStep(config, w, p, w', p')
    ensures Views(p', key) <= Seen(config, w, p, key)
  {
    hide Views, MissAfter, Expired, BodyPath, DeleteIfThere;
    var miss := MissAfter(config, p.key, p.withBucket);
    MissSeesNothing(config, p.key, p.withBucket, key);
    if p.key in w.cache {
      var meta := w.cache[p.key];
      FoundSees(p.key, meta, p.withBucket, miss, key);
    } else {
      UnknownSees(p.key, BodyPath(config, p.key), miss, key);
    }
  }

  lemma FoundSees(k: string, meta: Metadata, withBucket: bool, miss: Proc, key: string)
    requires Views(miss, key) == {}
    ensures Views(RemoveKey(k, DeleteIfThere(meta.record.bodyPath, miss)), key) == {}
    ensures Views(IfExists(meta.record.bodyPath, ReadBody(k, meta, withBucket), RemoveKey(k, miss)), key) ==
      if k == key then {OfEntry(meta)} else {}
  {
    DeleteIfThereSees(meta.record.bodyPath, miss, key);
    assert Views(RemoveKey(k, miss), key) == {};
  }

  lemma UnknownSees(k: string, path: FilePath, miss: Proc, key: string)
    requires Views(miss, key) == {}
    ensures Views(IfExists(path, Delete(path, miss), Finished(Found(k, Miss))), key) == {}
  {
    assert Views(Finished(Found(k, Miss)), key) == {};
    assert Views(Delete(path, miss), key) == {};
  }

  lemma ReadBodySees(config: Config, w: World, p: Proc, w': World, p': Proc, key: string)
    requires p.ReadBody? && ReadBodyStep(config, w, p, w', p')
    ensures Views(p', key) <= Seen(config, w, p, key)
  {
    hide MissAfter, Decode;
    var miss := MissAfter(config, p.key, p.withBucket);
    MissSeesNothing(config, p.key, p.withBucket, key);
    assert Views(RemoveKey(p.key, miss), key) == {};
    assert Views(Delete(p.meta.record.bodyPath, miss), key) == {};
    assert Views(RemoveKey(p.key, Delete(p.meta.record.bodyPath, miss)), key) == {};
  }

  lemma WriteSees(config: Config, w: World, p: Proc, w': World, p': Proc, key: string)
    requires (p.WriteTemp? || p.RenameTemp?) && PutStep(config, w, p, w', p')
    ensures Views(p', key) == {}
  {
    if p.RenameTemp? {
      var temp := TempOf(BodyPath(config, p.job.key));
      assert Views(Delete(temp, Finished(PutEnded(Failed))), key) == {};
    }
  }

  lemma InsertSees(config: Config, w: World, p: Proc, w': World, p': Proc, key: string)
    requires p.Insert? && PutStep(config, w, p, w', p')
    ensures Views(p', key) == {}
  {
    hide Persist, DeleteIfThere, StoreAfterPut, Views;
    StoreAfterPutSees(config, p.job, key);
    if MustEvict(config, w.cache, p.job.key) {
      var rest := Persist(config, p.job.key, p.job.withBucket, StoreAfterPut(config, p.job));
      PersistSeesNothing(config, p.job.key, p.job.withBucket, StoreAfterPut(config, p.job), key);
      forall victim | victim in w.cache ensures Views(DeleteIfThere(w.cache[victim].record.bodyPath, rest), key) == {} {
        DeleteIfThereSees(w.cache[victim].record.bodyPath, rest, key);
      }
    }
  }

  lemma StoreAfterPutSees(config: Config, job: PutRecord, key: string)
    ensures Views(StoreAfterPut(config, job), key) == {}
  {
    assert Views(Finished(PutEnded(Stored)), key) == {};
  }

  lemma ScannedSees(p: Proc, k: string, meta: Metadata, key: string)
    requires p.StoreScan?
    ensures Views(Scanned(p, k, meta), key) == Views(p, key)
  {
    hide Expired, DeleteIfThere;
    forall listed ensures Views(StoreScan(p.now, p.todo - {k}, listed, p.next), key) == Views(p, key) {
    }
    DeleteIfThereSees(meta.record.bodyPath, StoreScan(p.now, p.todo - {k}, p.listed, p.next), key);
  }

  lemma StoreScanSees(w: World, t: nat, p: Proc, w': World, p': Proc, key: string)
    requires p.StoreScan? && StoreStep(w, t, p, w', p')
    ensures Views(p', key) <= Views(p, key)
  {
    hide Scanned, WriteEntries;
    if p.todo == {} {
      assert Views(WriteMeta(p.listed, p.next), key) == Views(p, key);
    }
    hide Views;
    forall k | k in w.cache ensures Views(Scanned(p, k, w.cache[k]), key) == Views(p, key) {
      ScannedSees(p, k, w.cache[k], key);
    }
  }

  lemma StoreSees(w: World, t: nat, p: Proc, w': World, p': Proc, key: string)
    requires (p.StoreLock? || p.WriteMeta? || p.RenameMeta?) && StoreStep(w, t, p, w', p')
    ensures Views(p', key) <= Views(p, key)
  {
    hide WriteEntries;
  }

  lemma CleanSees(config: Config, w: World, p: Proc, w': World, p': Proc, key: string)
    requires (p.CleanStart? || p.CleanPaths? || p.CleanRead?) && CleanStep(config, w, p, w', p')
    ensures Views(p', key) <= Views(p, key)
  {
    hide ReadEntries, Paths;
  }

  lemma CleanedSees(p: Proc, dir: string, key: string)
    requires p.CleanLoop?
    ensures var rest := WriteMeta(p.kept, p.next);
      Views(rest, key) == Views(p, key) && Views(ScanDir(dir, p.valid, false, rest), key) == Views(p, key)
    ensures forall left, kept :: Views(CleanLoop(p.shard, p.valid, p.now, left, kept, p.next), key) == Views(p, key)
  {
  }

  lemma CleanLoopSees(config: Config, w: World, p: Proc, w': World, p': Proc, key: string)
    requires p.CleanLoop? && CleanStep(config, w, p, w', p')
    ensures Views(p', key) <= Views(p, key)
  {
    hide Expired, DeleteIfThere, ShardDir, ShardId, Views;
    if p.left == [] {
      CleanedSees(p, if p.shard.Some? then ShardDir(p.shard.value) else "", key);
    } else {
      var path := p.left[0].meta.record.bodyPath;
      CleanedSees(p, "", key);
      var keep := CleanLoop(p.shard, p.valid, p.now, p.left[1..], p.kept + [p.left[0]], p.next);
      var drop := CleanLoop(p.shard, p.valid, p.now, p.left[1..], p.kept, p.next);
      DeleteIfThereSees(path, drop, key);
      assert Views(IfExists(path, keep, drop), key) == Views(keep, key) + Views(drop, key) by {
        IfExistsSees(path, keep, drop, key);
      }
    }
  }

  lemma IfExistsSees(path: FilePath, yes: Proc, no: Proc, key: string)
    ensures Views(IfExists(path, yes, no), key) == Views(yes, key) + Views(no, key)
  {
  }

  lemma ScanSees(w: World, p: Proc, w': World, p': Proc, key: string)
    requires (p.ScanDir? || p.ScanFiles?) && SweepStep(w, p, w', p')
    ensures Views(p', key) <= Views(p, key)
  {
    if p.ScanFiles? && p.files != {} {
      forall f ensures Views(ScanFiles(p.files - {f}, p.valid, p.sweepTemps, p.next), key) == Views(p, key) {
      }
    }
  }

  lemma OrphanSees(w: World, p: Proc, w': World, p': Proc, key: string)
    requires (p.OrphanStart? || p.OrphanDirs?) && SweepStep(w, p, w', p')
    ensures Views(p', key) == {}
  {
    if p.OrphanDirs? && p.dirs != {} {
      forall dir ensures Views(OrphanDirs(p.valid, p.dirs - {dir}), key) == {} {
      }
    }
  }

  /** A task sees more only when it looks at the map. */
  lemma StepSees(config: Config, w: World, t: nat, p: Proc, w': World, p': Proc, key: string)
    requires Exec(config, w, t, p, w', p') && !Boots(p)
    ensures Views(p', key) <= Views(p, key) + Seen(config, w, p, key)
  {
    hide LookUpStep, ReadBodyStep, PutStep, StoreStep, CleanStep, SweepStep, LoadStep;
    if p.LookUp? { LookUpSees(config, w, p, w', p', key); }
    else if p.ReadBody? { ReadBodySees(config, w, p, w', p', key); }
    else if p.WriteTemp? || p.RenameTemp? { WriteSees(config, w, p, w', p', key); }
    else if p.Insert? { InsertSees(config, w, p, w', p', key); }
    else if p.StoreScan? { StoreScanSees(w, t, p, w', p', key); }
    else if p.StoreLock? || p.WriteMeta? || p.RenameMeta? { StoreSees(w, t, p, w', p', key); }
    else if p.CleanStart? || p.CleanPaths? || p.CleanRead? { CleanSees(config, w, p, w', p', key); }
    else if p.CleanLoop? { CleanLoopSees(config, w, p, w', p', key); }
    else if p.ScanDir? || p.ScanFiles? { ScanSees(w, p, w', p', key); }
    else if p.OrphanStart? || p.OrphanDirs? { OrphanSees(w, p, w', p', key); }
  }

  // ---------- What the steps of a task do to one key ----------

  /** The entry of `key` and the file `f` stay as they are, or go. */
  predicate Lessens(w: World, w': World, key: string, f: FilePath) {
    && (key in w'.cache ==> key in w.cache && w'.cache[key] == w.cache[key])
    && (f in w'.files ==> f in w.files && w'.files[f] == w.files[f])
  }

  lemma OtherPathsDiffer(config: Config, a: string, b: string)
    requires config.crc(a) != config.crc(b)
    ensures BodyPath(config, a) != BodyPath(config, b)
    ensures TempOf(BodyPath(config, a)) != TempOf(BodyPath(config, b))
    ensures TempOf(BodyPath(config, a)) != BodyPath(config, b) && TempOf(BodyPath(config, b)) != BodyPath(config, a)
  {
    SamePathIffSameCrc(config, a, b);
    BodyPathIsAShardBin(config, a);
    BodyPathIsAShardBin(config, b);
    var p, q := BodyPath(config, a), BodyPath(config, b);
    assert p == TempOf(p).(ext := BIN) && q == TempOf(q).(ext := BIN);
  }

  /** A step that is not part of a put of a key with the same checksum. */
  lemma OthersOnlyTakeAway(config: Config, w: World, t: nat, p: Proc, w': World, p': Proc, key: string)
    requires Exec(config, w, t, p, w', p') && !Boots(p)
    requires Puts(p) ==> config.crc(p.job.key) != config.crc(key)
    ensures Lessens(w, w', key, BodyPath(config, key)) && Lessens(w, w', key, TempOf(BodyPath(config, key)))
  {
    hide Lessens, BodyPath, PutStep, Boots;
    if Quiet(p) {
      QuietKeepsData(config, w, t, p, w', p');
      SameIsLess(w, w', key, BodyPath(config, key));
      SameIsLess(w, w', key, TempOf(BodyPath(config, key)));
    } else if Puts(p) {
      OtherPutsTakeAway(config, w, p, w', p', key);
    } else {
      RemovalsTakeAway(config, w, t, p, w', p', key, BodyPath(config, key));
      RemovalsTakeAway(config, w, t, p, w', p', key, TempOf(BodyPath(config, key)));
    }
  }

  lemma SameIsLess(w: World, w': World, key: string, f: FilePath)
    requires SameData(w, w')
    ensures Lessens(w, w', key, f)
  {
  }

  lemma OtherPutsTakeAway(config: Config, w: World, p: Proc, w': World, p': Proc, key: string)
    requires Puts(p) && PutStep(config, w, p, w', p') && config.crc(p.job.key) != config.crc(key)
    ensures Lessens(w, w', key, BodyPath(config, key)) && Lessens(w, w', key, TempOf(BodyPath(config, key)))
  {
    hide BodyPath, RecordOf, DeleteIfThere, Persist, StoreAfterPut;
    OtherPathsDiffer(config, p.job.key, key);
  }

  lemma RemovalsTakeAway(
    config: Config, w: World, t: nat, p: Proc, w': World, p': Proc, key: string, f: FilePath)
    requires !Quiet(p) && !Boots(p) && !Puts(p) && Exec(config, w, t, p, w', p')
    ensures Lessens(w, w', key, f)
  {
    hide WriteEntries;
  }

  // ---------- Lookups and puts out of each other's way ----------

  /** Task `t` has renamed a body of `key` into place and not yet inserted its entry. */
  predicate Renamed(w: World, t: nat, key: string) {
    t in w.tasks && w.tasks[t].Insert? && w.tasks[t].job.key == key
  }

  /** Task `t` has written a temporary file for `key` and not yet renamed it. */
  predicate Written(w: World, t: nat, key: string) {
    t in w.tasks && w.tasks[t].RenameTemp? && w.tasks[t].job.key == key
  }

  /** Task `t` has found an entry of `key` and may still read the body. */
  ghost predicate HasSeen(w: World, t: nat, key: string) {
    t in w.tasks && exists meta :: OfEntry(meta) in Views(w.tasks[t], key)
  }

  /** No two puts of `key` are between writing and renaming, no two between renaming and insertion, and no lookup
      is between map and body while a put is between renaming and insertion. */
  ghost predicate Undisturbed(w: World, key: string) {
    && (forall t, u :: Written(w, t, key) && Written(w, u, key) ==> t == u)
    && (forall t, u :: Renamed(w, t, key) && Renamed(w, u, key) ==> t == u)
    && (forall t, u :: Renamed(w, t, key) ==> !HasSeen(w, u, key))
  }

  /** No put of `key` is dropped between renaming and insertion. */
  ghost predicate NoneCut(w: World, w': World, key: string) {
    forall t :: Renamed(w, t, key) ==> t in w'.tasks && w'.tasks[t] != Finished(Cancelled)
  }

  /** From world `i` to world `j` the process serves and `key` is left in peace. */
  ghost predicate CalmStretch(run: seq<World>, i: nat, j: nat, key: string)
    requires i <= j < |run|
  {
    && (forall k :: i <= k <= j ==> run[k].serving && Undisturbed(run[k], key))
    && (forall k :: i <= k < j ==> NoneCut(run[k], run[k + 1], key))
  }

  // ---------- The invariant ----------

  /** The record and the bytes are those of one put of `key`. */
  ghost predicate Paired(config: Config, puts: set<PutRecord>, key: string, record: Record, raw: Bytes) {
    exists c :: c in puts && c.key == key && RecordOf(config, c) == record && c.raw == raw
  }

  ghost predicate HasPair(config: Config, w: World, key: string, record: Record) {
    var path := BodyPath(config, key);
    path in w.files ==> Paired(config, w.puts, key, record, w.files[path])
  }

  /** What is in sight belongs together; hits from before are not looked at. */
  ghost predicate Right(config: Config, w: World, ended: bool, key: string, v: Sight) {
    match v
    case OfEntry(meta) => HasPair(config, w, key, meta.record)
    case OfHit(hit) => ended || WholeHit(config, w.puts, key, hit)
  }

  /** The invariant; `earlier` are the tasks that had ended before. */
  ghost predicate Whole(config: Config, w: World, earlier: set<nat>, key: string) {
    var path := BodyPath(config, key);
    && (key in w.cache ==> (exists t :: Renamed(w, t, key)) || HasPair(config, w, key, w.cache[key].record))
    && (forall t :: Renamed(w, t, key) ==> path in w.files ==> w.files[path] == w.tasks[t].job.raw)
    && (forall t :: Written(w, t, key) ==> TempOf(path) in w.files ==> w.files[TempOf(path)] == w.tasks[t].job.raw)
    && (forall t, v :: t in w.tasks && v in Views(w.tasks[t], key) ==> Right(config, w, t in earlier, key, v))
  }

  /** A hit with headers, status and body of one put. */
  ghost predicate WholeHit(config: Config, puts: set<PutRecord>, key: string, hit: Lookup) {
    exists c :: c in puts && ServesBodyOf(config, c, key, hit) && ServesHeadersOf(config, c, key, hit)
  }

  predicate HasHit(w: World, t: nat, key: string, hit: Lookup) {
    t in w.tasks && w.tasks[t] == Finished(Found(key, hit)) && hit.Hit?
  }

  // ---------- Steps that keep it ----------

  /** What the invariants of the whole system say of a world in which requests are served. */
  ghost predicate Running(config: Config, w: World) {
    Safe(config, w) && InBounds(config, w) && w.serving
  }

  ghost predicate After(w: World, t: nat, x: World, p': Proc, w': World) {
    t in w.tasks && x.tasks == w.tasks && x.puts == w.puts && w' == x.(tasks := w.tasks[t := p'])
  }

  /** A task of a served world is no part of `load`, and its step starts no put. */
  lemma ServedStep(config: Config, w: World, t: nat, x: World, p': Proc)
    requires Running(config, w) && t in w.tasks && Exec(config, w, t, w.tasks[t], x, p')
    ensures !Boots(w.tasks[t]) && !Boots(p') && (Puts(p') ==> Puts(w.tasks[t]))
    ensures After(w, t, x, p', x.(tasks := w.tasks[t := p'])) && x.serving
    ensures Puts(w.tasks[t]) ==> w.tasks[t].job in w.puts
  {
    var p := w.tasks[t];
    assert !p.Finished?;
    hide Exec, FitsProc, Fits, SafeProc, Boots, Loading;
    assert t != 0;
    FitsSubset(Bound(config), w.cache.Keys + Loading(w.tasks[0]), w.cache.Keys);
    TaskFits(config, w, t, p, x, p');
    ExecIsSafe(config, w, t, p, x, p');
    if Puts(p) {
      PutTaskIsRecorded(config, w.puts, p);
    }
  }

  lemma PutTaskIsRecorded(config: Config, puts: set<PutRecord>, p: Proc)
    requires Puts(p) && SafeProc(config, puts, p)
    ensures p.job in puts
  {
  }

  lemma PutKeepsItsJob(config: Config, w: World, p: Proc, w': World, p': Proc)
    requires Puts(p) && PutStep(config, w, p, w', p')
    ensures Puts(p') ==> p'.job == p.job && !p'.WriteTemp? && !p.Insert?
  {
  }

  /** A step that adds nothing under `key`. */
  predicate Aside(config: Config, w: World, p: Proc, x: World, p': Proc, key: string) {
    && Lessens(w, x, key, BodyPath(config, key)) && Lessens(w, x, key, TempOf(BodyPath(config, key)))
    && (Puts(p) ==> p.job.key != key) && (Puts(p') ==> p'.job.key != key)
    && Views(p', key) <= Views(p, key) + Seen(config, w, p, key)
  }

  lemma OthersStepAside(config: Config, w: World, t: nat, x: World, p': Proc, key: string)
    requires Running(config, w) && OwnChecksum(config, w.puts, key)
    requires t in w.tasks && Exec(config, w, t, w.tasks[t], x, p') && (Puts(w.tasks[t]) ==> w.tasks[t].job.key != key)
    ensures Aside(config, w, w.tasks[t], x, p', key)
  {
    hide Running, Views, Boots, BodyPath, Lessens;
    var p := w.tasks[t];
    ServedStep(config, w, t, x, p');
    if Puts(p) {
      PutKeepsItsJob(config, w, p, x, p');
    }
    hide Exec;
    OthersOnlyTakeAway(config, w, t, p, x, p', key);
    StepSees(config, w, t, p, x, p', key);
  }

  lemma WholeHitIsRead(config: Config, w: World, p: Proc, key: string, hit: Lookup)
    requires PutsAccepted(config, w.puts) && p.ReadBody? && SafeProc(config, w.puts, p)
    requires OfHit(hit) in Seen(config, w, p, key) && HasPair(config, w, key, p.meta.record)
    ensures WholeHit(config, w.puts, key, hit)
  {
    var path := BodyPath(config, key);
    assert p.meta.record.bodyPath == path;
    var c :| c in w.puts && c.key == key && RecordOf(config, c) == p.meta.record && c.raw == w.files[path];
    assert IsPut(config, c);
    if ReadsBack(config, c.body) {
      BodyRoundTrips(config, c.body);
    }
    assert ServesBodyOf(config, c, key, hit) && ServesHeadersOf(config, c, key, hit);
  }

  /** What is in sight after a step that adds nothing under `key`. */
  lemma AsideSightIsRight(
    config: Config, w: World, t: nat, x: World, p': Proc, w': World, earlier: set<nat>, key: string, u: nat, v: Sight)
    requires Whole(config, w, earlier, key) && After(w, t, x, p', w') && Aside(config, w, w.tasks[t], x, p', key)
    requires Running(config, w) && (HasSeen(w', u, key) ==> forall r :: !Renamed(w, r, key))
    requires u in w'.tasks && v in Views(w'.tasks[u], key)
    ensures Right(config, w', u in earlier, key, v)
  {
    hide Views, BodyPath, Paired, WholeHit, Decode;
    var p := w.tasks[t];
    if u != t || v in Views(p, key) {
      assert Right(config, w, u in earlier, key, v);
    } else if v.OfEntry? {
      assert HasSeen(w', t, key);
    } else {
      assert OfEntry(p.meta) in Views(p, key) by { ReadBodyIsInSight(p, key); }
      WholeHitIsRead(config, w, p, key, v.hit);
    }
  }

  lemma ReadBodyIsInSight(p: Proc, key: string)
    requires p.ReadBody? && p.key == key
    ensures OfEntry(p.meta) in Views(p, key)
  {
  }

  lemma AsideKeepsWhole(
    config: Config, w: World, t: nat, x: World, p': Proc, w': World, earlier: set<nat>, key: string)
    requires Whole(config, w, earlier, key) && After(w, t, x, p', w') && Aside(config, w, w.tasks[t], x, p', key)
    requires Undisturbed(w', key) && Running(config, w)
    ensures Whole(config, w', earlier, key)
  {
    hide Views, BodyPath, Paired, Running, Right;
    forall u ensures Renamed(w', u, key) == Renamed(w, u, key) && Written(w', u, key) == Written(w, u, key) {
    }
    forall u, v | u in w'.tasks && v in Views(w'.tasks[u], key) ensures Right(config, w', u in earlier, key, v) {
      AsideSightIsRight(config, w, t, x, p', w', earlier, key, u, v);
    }
  }

  lemma OwnWriteKeepsWhole(
    config: Config, w: World, t: nat, x: World, p': Proc, w': World, earlier: set<nat>, key: string)
    requires Whole(config, w, earlier, key) && After(w, t, x, p', w') && Undisturbed(w', key)
    requires var p := w.tasks[t]; p.WriteTemp? && p.job.key == key && PutStep(config, w, p, x, p')
    ensures Whole(config, w', earlier, key)
  {
    var p := w.tasks[t];
    WriteSees(config, w, p, x, p', key);
    BodyPathIsAShardBin(config, key);
    hide Views, BodyPath, Paired;
    forall u ensures Renamed(w', u, key) == Renamed(w, u, key) {
    }
    forall u | Written(w', u, key) && u != t ensures Written(w, u, key) && !Written(w', t, key) {
    }
    forall u, v | u in w'.tasks && v in Views(w'.tasks[u], key) ensures Right(config, w', u in earlier, key, v) {
      assert u != t && Right(config, w, u in earlier, key, v);
    }
  }

  lemma OwnRenameKeepsWhole(
    config: Config, w: World, t: nat, x: World, p': Proc, w': World, earlier: set<nat>, key: string)
    requires Whole(config, w, earlier, key) && After(w, t, x, p', w') && Undisturbed(w', key)
    requires var p := w.tasks[t]; p.RenameTemp? && p.job.key == key && PutStep(config, w, p, x, p')
    ensures Whole(config, w', earlier, key)
  {
    var p := w.tasks[t];
    WriteSees(config, w, p, x, p', key);
    BodyPathIsAShardBin(config, key);
    hide Views, BodyPath, Paired;
    assert Written(w, t, key);
    forall u | u != t ensures Renamed(w', u, key) == Renamed(w, u, key) && Written(w', u, key) == Written(w, u, key) {
    }
    if p'.Insert? {
      assert Renamed(w', t, key);
    }
    forall u, v | u in w'.tasks && v in Views(w'.tasks[u], key) ensures Right(config, w', u in earlier, key, v) {
      assert u != t && Right(config, w, u in earlier, key, v);
      assert v.OfEntry? ==> HasSeen(w', u, key);
    }
  }

  lemma OwnInsertKeepsWhole(
    config: Config, w: World, t: nat, x: World, p': Proc, w': World, earlier: set<nat>, key: string)
    requires Whole(config, w, earlier, key) && After(w, t, x, p', w') && Undisturbed(w, key)
    requires var p := w.tasks[t]; p.Insert? && p.job.key == key && p.job in w.puts && PutStep(config, w, p, x, p')
    ensures Whole(config, w', earlier, key)
  {
    var p := w.tasks[t];
    InsertSees(config, w, p, x, p', key);
    PutKeepsItsJob(config, w, p, x, p');
    InsertsItsEntry(config, w, p, x, p');
    hide Views, BodyPath, PutStep;
    assert Renamed(w, t, key);
    forall u ensures !Renamed(w', u, key) && Written(w', u, key) == Written(w, u, key) {
      assert u != t ==> !Renamed(w, u, key);
    }
    forall u, v | u in w'.tasks && v in Views(w'.tasks[u], key) ensures Right(config, w', u in earlier, key, v) {
      assert u != t && Right(config, w, u in earlier, key, v);
      assert v.OfEntry? ==> HasSeen(w, u, key);
    }
  }

  lemma InsertsItsEntry(config: Config, w: World, p: Proc, w': World, p': Proc)
    requires p.Insert? && PutStep(config, w, p, w', p')
    ensures p.job.key in w'.cache && w'.cache[p.job.key] == Metadata(RecordOf(config, p.job), p.createdAt)
    ensures w'.files == w.files && !Puts(p')
  {
    hide RecordOf, BodyPath;
  }

  lemma PutsByPutStep(config: Config, w: World, t: nat, p: Proc, w': World, p': Proc)
    requires Puts(p) && Exec(config, w, t, p, w', p')
    ensures PutStep(config, w, p, w', p')
  {
    hide PutStep;
  }

  lemma TaskStepKeepsWhole(
    config: Config, w: World, t: nat, x: World, p': Proc, w': World, earlier: set<nat>, key: string)
    requires Running(config, w) && OwnChecksum(config, w.puts, key) && Whole(config, w, earlier, key)
    requires After(w, t, x, p', w') && Exec(config, w, t, w.tasks[t], x, p')
    requires Undisturbed(w, key) && Undisturbed(w', key)
    ensures Whole(config, w', earlier, key)
  {
    hide Running, Whole, Undisturbed, Exec, PutStep, Boots;
    var p := w.tasks[t];
    ServedStep(config, w, t, x, p');
    if Puts(p) {
      PutsByPutStep(config, w, t, p, x, p');
    }
    if !Puts(p) || p.job.key != key {
      OthersStepAside(config, w, t, x, p', key);
      AsideKeepsWhole(config, w, t, x, p', w', earlier, key);
    } else if p.WriteTemp? {
      OwnWriteKeepsWhole(config, w, t, x, p', w', earlier, key);
    } else if p.RenameTemp? {
      OwnRenameKeepsWhole(config, w, t, x, p', w', earlier, key);
    } else {
      OwnInsertKeepsWhole(config, w, t, x, p', w', earlier, key);
    }
  }

  /** More puts, and tasks of which fewer are under way with `key`. */
  ghost predicate SameStorageMorePuts(w: World, w': World, key: string) {
    && w'.cache == w.cache && w'.files == w.files && w.puts <= w'.puts
    && (forall u :: Renamed(w', u, key) <==> Renamed(w, u, key))
    && (forall u :: Renamed(w', u, key) && Renamed(w, u, key) ==> w'.tasks[u] == w.tasks[u])
    && (forall u :: Written(w', u, key) ==> Written(w, u, key) && w'.tasks[u] == w.tasks[u])
    && (forall u :: u in w'.tasks && Views(w'.tasks[u], key) != {} ==> u in w.tasks && w'.tasks[u] == w.tasks[u])
  }

  lemma MorePutsKeepWhole(config: Config, w: World, w': World, earlier: set<nat>, key: string)
    requires Whole(config, w, earlier, key) && SameStorageMorePuts(w, w', key)
    ensures Whole(config, w', earlier, key)
  {
    hide Views, BodyPath, ServesBodyOf, ServesHeadersOf;
    forall u, v | u in w'.tasks && v in Views(w'.tasks[u], key) ensures Right(config, w', u in earlier, key, v) {
      assert Right(config, w, u in earlier, key, v);
    }
  }

  lemma StartKeepsStorage(config: Config, w: World, t: nat, p: Proc, w': World, key: string)
    requires StartStep(config, w, t, p, w')
    ensures SameStorageMorePuts(w, w', key)
  {
    assert Views(Finished(Swept), key) == {};
    assert Views(CleanStart(None, Finished(Swept)), key) == {};
    assert Views(p, key) == {} && !p.Insert? && !p.RenameTemp?;
  }

  lemma CancelKeepsStorage(w: World, t: nat, w': World, key: string)
    requires CancelStep(w, t, w') && NoneCut(w, w', key)
    ensures SameStorageMorePuts(w, w', key)
  {
    assert !Renamed(w, t, key);
  }

  lemma WorldStepKeepsWhole(config: Config, w: World, w': World, earlier: set<nat>, key: string)
    requires Running(config, w) && w'.serving && OwnChecksum(config, w.puts, key) && WorldStep(config, w, w')
    requires Undisturbed(w, key) && Undisturbed(w', key) && NoneCut(w, w', key) && Whole(config, w, earlier, key)
    ensures Whole(config, w', earlier, key)
  {
    hide Running, Undisturbed, NoneCut, Whole, Views, Exec, StartStep, CancelStep, SameStorageMorePuts;
    if t :| TaskStep(config, w, t, w') {
      var x, p' :| Exec(config, w, t, w.tasks[t], x, p') && w' == x.(tasks := w.tasks[t := p']);
      ServedStep(config, w, t, x, p');
      TaskStepKeepsWhole(config, w, t, x, p', w', earlier, key);
    } else {
      if t, p :| StartStep(config, w, t, p, w') {
        StartKeepsStorage(config, w, t, p, w', key);
      } else if t :| CancelStep(w, t, w') {
        CancelKeepsStorage(w, t, w', key);
      } else {
        OtherStepsKeepStorage(w, w', key);
      }
      MorePutsKeepWhole(config, w, w', earlier, key);
    }
  }

  lemma OtherStepsKeepStorage(w: World, w': World, key: string)
    requires ServeStep(w, w') || TickStep(w, w')
    ensures SameStorageMorePuts(w, w', key)
  {
    hide Views;
  }

  lemma PutsGrow(config: Config, w: World, w': World)
    requires Safe(config, w) && WorldStep(config, w, w')
    ensures w.puts <= w'.puts
  {
    hide Exec, Safe;
    if t :| TaskStep(config, w, t, w') {
      var x, p' :| Exec(config, w, t, w.tasks[t], x, p') && w' == x.(tasks := w.tasks[t := p']);
      TaskKeepsPuts(config, w, t, x, p');
    }
  }

  lemma TaskKeepsPuts(config: Config, w: World, t: nat, x: World, p': Proc)
    requires Safe(config, w) && t in w.tasks && Exec(config, w, t, w.tasks[t], x, p')
    ensures x.puts == w.puts
  {
    hide Exec, SafeProc;
    ExecIsSafe(config, w, t, w.tasks[t], x, p');
  }

  // ---------- Runs ----------

  /** No lookup and no put of `key` is under way, and if its entry has a body, both are of one put. */
  ghost predicate Settled(config: Config, w: World, key: string) {
    && (forall t :: !Renamed(w, t, key) && !Written(w, t, key))
    && (forall t :: t in w.tasks && Views(w.tasks[t], key) != {} ==> w.tasks[t].Finished?)
    && (key in w.cache ==> HasPair(config, w, key, w.cache[key].record))
  }

  function Ended(w: World): set<nat> {
    set t | t in w.tasks && w.tasks[t].Finished?
  }

  lemma {:induction false} CalmStretchStaysWhole(config: Config, run: seq<World>, i: nat, j: nat, key: string)
    requires IsRun(config, run) && i <= j < |run| && CalmStretch(run, i, j, key)
    requires Settled(config, run[i], key) && OwnChecksum(config, run[j].puts, key)
    ensures Whole(config, run[j], Ended(run[i]), key)
    decreases j
  {
    hide Whole, Undisturbed, NoneCut, WorldStep, Safe, InBounds;
    if i == j {
      SettledIsWhole(config, run[i], key);
    } else {
      assert StepAt(config, run, j - 1);
      EveryRunIsSafe(config, run, j - 1);
      EveryRunStaysInBounds(config, run, j - 1);
      PutsGrow(config, run[j - 1], run[j]);
      CalmStretchStaysWhole(config, run, i, j - 1, key);
      WorldStepKeepsWhole(config, run[j - 1], run[j], Ended(run[i]), key);
    }
  }

  lemma SettledIsWhole(config: Config, w: World, key: string)
    requires Settled(config, w, key)
    ensures Whole(config, w, Ended(w), key)
  {
    hide Views, BodyPath;
    forall t, v | t in w.tasks && v in Views(w.tasks[t], key) ensures Right(config, w, t in Ended(w), key, v) {
      FinishedSeesHits(w.tasks[t], key);
    }
  }

  lemma FinishedSeesHits(p: Proc, key: string)
    requires p.Finished?
    ensures forall v :: v in Views(p, key) ==> v.OfHit?
  {
  }

  /** In every run, over every stretch in which the process serves and lookups and puts of `key` keep out of each
      other's way, each lookup of `key` that hits gets headers, status and body of one put, whatever the tasks of
      other keys, the background passes and failing file operations do. */
  lemma HitsStayWhole(config: Config, run: seq<World>, i: nat, j: nat, key: string, t: nat, hit: Lookup)
    requires IsRun(config, run) && i <= j < |run| && CalmStretch(run, i, j, key)
    requires Settled(config, run[i], key) && OwnChecksum(config, run[j].puts, key)
    requires HasHit(run[j], t, key, hit) && t !in Ended(run[i])
    ensures WholeHit(config, run[j].puts, key, hit)
  {
    hide CalmStretch, Settled;
    CalmStretchStaysWhole(config, run, i, j, key);
    assert OfHit(hit) in Views(run[j].tasks[t], key);
  }
}
