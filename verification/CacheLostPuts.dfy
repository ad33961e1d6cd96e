/** Two runs in which a put completes within the ttl and is not found again: an earlier lookup that saw the expired
    entry takes away the new one, or a `store` that saw it deletes the new body. */
module CacheLostPuts {
  import opened Wrappers
  import opened CacheTypes
  import opened CacheFacts
  import opened CacheTasks
  import opened CacheTornHit

  function EntryOf(config: Config, job: PutRecord, createdAt: int): Metadata {
    Metadata(RecordOf(config, job), createdAt)
  }

  /** A time at which what is put at `clock` has expired. */
  function Later(config: Config, clock: Clock): Clock {
    Clock(clock.now + (config.ttl + 1) * SECOND, clock.wall)
  }

  lemma LaterIsLate(config: Config, job: PutRecord, clock: Clock)
    ensures clock.now <= Later(config, clock).now
    ensures Expired(EntryOf(config, job, clock.now), Later(config, clock).now)
  {
    hide RecordOf;
    ExpiredIff(EntryOf(config, job, clock.now), Later(config, clock).now);
    assert RecordOf(config, job).ttl == config.ttl by { RecordHasTtl(config, job); }
  }

  lemma RecordHasTtl(config: Config, job: PutRecord)
    ensures RecordOf(config, job).ttl == config.ttl && RecordOf(config, job).bodyPath == BodyPath(config, job.key)
  {
  }

  /** The first put has ended and its entry has expired; the second one has not yet begun to write. */
  lemma FirstPutExpires(config: Config, clock: Clock, first: PutRecord, second: PutRecord)
    returns (run: seq<World>, w: World)
    requires config.capacity >= 1 && IsPut(config, first) && IsPut(config, second) && first.key == second.key
    ensures Reaches(config, run, w) && w.serving && w.lock.None? && w.clock == Later(config, clock)
    ensures w.tasks == map[0 := Finished(Loaded), 1 := StoreAfterPut(config, first), 2 := WriteTemp(second)]
    ensures w.cache == map[first.key := EntryOf(config, first, clock.now)]
    ensures Expired(w.cache[first.key], w.clock.now) && BodyPath(config, first.key) in w.files
  {
    hide RecordOf, IsPut, Reaches, StoreAfterPut, BodyPath, Expired;
    run, w := TwoPutsBegin(config, clock, first, second);
    run, w := WritesBody(config, run, w, 1, first);
    run, w := InsertsEntry(config, run, w, 1, first, clock.now);
    LaterIsLate(config, first, clock);
    var w' := w.(clock := Later(config, clock));
    assert TickStep(w, w');
    run := Extend(config, run, w, w');
    w := w';
    assert w.tasks == map[0 := Finished(Loaded), 1 := StoreAfterPut(config, first), 2 := WriteTemp(second)];
  }

  /** A step of task `t` that only moves it on. */
  lemma MovesOn(config: Config, run: seq<World>, w: World, t: nat, p': Proc) returns (longer: seq<World>, w': World)
    requires Reaches(config, run, w) && t in w.tasks && Exec(config, w, t, w.tasks[t], w, p')
    ensures Reaches(config, longer, w') && w' == w.(tasks := w.tasks[t := p'])
  {
    hide Exec, Reaches;
    longer := Does(config, run, w, t, w, p');
    w' := w.(tasks := w.tasks[t := p']);
  }

  /** A lookup begins and finds an expired entry. */
  lemma FindsExpired(config: Config, run: seq<World>, w: World, t: nat, key: string, withBucket: bool)
    returns (longer: seq<World>, w': World, next: Proc)
    requires Reaches(config, run, w) && w.serving && w.lock.None? && t !in w.tasks
    requires key in w.cache && Expired(w.cache[key], w.clock.now)
    ensures Reaches(config, longer, w')
    ensures w' == w.(tasks := w.tasks[t := RemoveKey(key, DeleteIfThere(w.cache[key].record.bodyPath, next))])
  {
    hide Reaches, Expired, MissAfter, DeleteIfThere;
    var mid := w.(tasks := w.tasks[t := LookUp(key, withBucket)]);
    longer := Starts(config, run, w, t, LookUp(key, withBucket), mid);
    next := MissAfter(config, key, withBucket);
    longer, w' := MovesOn(config, longer, mid, t, RemoveKey(key, DeleteIfThere(w.cache[key].record.bodyPath, next)));
    assert w'.tasks == w.tasks[t := RemoveKey(key, DeleteIfThere(w.cache[key].record.bodyPath, next))];
  }

  /** A file that is there is deleted. */
  lemma DeletesFile(config: Config, run: seq<World>, w: World, t: nat, path: FilePath, next: Proc)
    returns (longer: seq<World>, w': World)
    requires Reaches(config, run, w) && t in w.tasks && w.tasks[t] == DeleteIfThere(path, next) && path in w.files
    ensures Reaches(config, longer, w') && w' == w.(tasks := w.tasks[t := next], files := w.files - {path})
  {
    hide Reaches;
    longer, w' := MovesOn(config, run, w, t, Delete(path, next));
    longer := Does(config, longer, w', t, w'.(files := w.files - {path}), next);
    w' := w'.(files := w.files - {path}, tasks := w'.tasks[t := next]);
    assert w'.tasks == w.tasks[t := next];
  }

  /** A lookup has found the expired entry; then the second put completes; then the lookup goes on and removes what
      has come in its place. */
  lemma LookupTakesNewEntry(config: Config, clock: Clock, first: PutRecord, second: PutRecord, withBucket: bool)
    returns (run: seq<World>, w: World)
    requires config.capacity >= 1 && IsPut(config, first) && IsPut(config, second) && first.key == second.key
    ensures IsRun(config, run) && w == run[|run| - 1] && w.clock == Later(config, clock)
    ensures 2 in w.tasks && w.tasks[2] == StoreAfterPut(config, second)
    ensures second.key !in w.cache && BodyPath(config, second.key) !in w.files
  {
    hide RecordOf, IsPut, IsRun, StoreAfterPut, BodyPath, Expired, DeleteIfThere;
    var key, path, next := first.key, BodyPath(config, first.key), Finished(Loaded);
    run, w := FirstPutExpires(config, clock, first, second);
    RecordHasTtl(config, first);
    run, w, next := FindsExpired(config, run, w, 3, key, withBucket);
    run, w := WritesBody(config, run, w, 2, second);
    run, w := InsertsEntry(config, run, w, 2, second, w.clock.now);
    run, w := RemovesKey(config, run, w, 3, key, DeleteIfThere(path, next));
    run, w := DeletesFile(config, run, w, 3, path, next);
  }

  lemma RemovesKey(config: Config, run: seq<World>, w: World, t: nat, key: string, next: Proc)
    returns (longer: seq<World>, w': World)
    requires Reaches(config, run, w) && t in w.tasks && w.tasks[t] == RemoveKey(key, next) && w.lock.None?
    ensures Reaches(config, longer, w') && w' == w.(tasks := w.tasks[t := next], cache := w.cache - {key})
  {
    hide Reaches;
    longer := Does(config, run, w, t, w.(cache := w.cache - {key}), next);
    w' := w.(cache := w.cache - {key}, tasks := w.tasks[t := next]);
  }

  /** A `store` begins and sees the one entry, which has expired. */
  lemma ScansExpired(config: Config, run: seq<World>, w: World, t: nat, key: string)
    returns (longer: seq<World>, w': World)
    requires Reaches(config, run, w) && w.lock.None? && t !in w.tasks
    requires w.cache.Keys == {key} && Expired(w.cache[key], w.clock.now)
    ensures Reaches(config, longer, w')
    ensures w' == w.(lock := Some(t), tasks := w.tasks[t :=
      DeleteIfThere(w.cache[key].record.bodyPath, StoreScan(w.clock.now, {}, [], Finished(Swept)))])
  {
    hide Reaches, Expired, DeleteIfThere;
    var begin, done := StoreLock(Finished(Swept)), Finished(Swept);
    var scan := StoreScan(w.clock.now, {key}, [], done);
    var w1 := w.(tasks := w.tasks[t := begin]);
    longer := Starts(config, run, w, t, begin, w1);
    longer := Does(config, longer, w1, t, w1.(lock := Some(t)), scan);
    var w2 := w1.(lock := Some(t), tasks := w1.tasks[t := scan]);
    var after := DeleteIfThere(w.cache[key].record.bodyPath, StoreScan(w.clock.now, {}, [], done));
    assert scan.todo - {key} == {} && Scanned(scan, key, w.cache[key]) == after;
    longer, w' := MovesOn(config, longer, w2, t, after);
    assert w'.tasks == w.tasks[t := after];
  }

  lemma ScanEnds(config: Config, run: seq<World>, w: World, t: nat, now: int, next: Proc)
    returns (longer: seq<World>, w': World)
    requires Reaches(config, run, w) && t in w.tasks && w.tasks[t] == StoreScan(now, {}, [], next)
    ensures Reaches(config, longer, w') && w' == w.(lock := None, tasks := w.tasks[t := WriteMeta([], next)])
  {
    hide Reaches;
    longer := Does(config, run, w, t, w.(lock := None), WriteMeta([], next));
    w' := w.(lock := None, tasks := w.tasks[t := WriteMeta([], next)]);
  }

  /** A `store` sees the expired entry when the second put has renamed its body; it deletes that, and then the entry
      is inserted. */
  lemma StoreTakesNewBody(config: Config, clock: Clock, first: PutRecord, second: PutRecord)
    returns (run: seq<World>, w: World)
    requires config.capacity >= 1 && IsPut(config, first) && IsPut(config, second) && first.key == second.key
    ensures IsRun(config, run) && w == run[|run| - 1] && w.clock == Later(config, clock)
    ensures 2 in w.tasks && w.tasks[2] == StoreAfterPut(config, second)
    ensures second.key in w.cache && w.cache[second.key] == EntryOf(config, second, w.clock.now)
    ensures BodyPath(config, second.key) !in w.files
  {
    hide RecordOf, IsPut, IsRun, StoreAfterPut, BodyPath, Expired, DeleteIfThere;
    var key, path, scan := first.key, BodyPath(config, first.key), Later(config, clock).now;
    run, w := FirstPutExpires(config, clock, first, second);
    RecordHasTtl(config, first);
    run, w := WritesBody(config, run, w, 2, second);
    run, w := ScansExpired(config, run, w, 3, key);
    run, w := DeletesFile(config, run, w, 3, path, StoreScan(scan, {}, [], Finished(Swept)));
    run, w := ScanEnds(config, run, w, 3, scan, Finished(Swept));
    run, w := InsertsEntry(config, run, w, 2, second, scan);
  }
}
