/** Other ways to a hit with the headers of one put and the body of another than two overlapping puts: a lookup during
    one put, a put that is dropped, and a crash before the metadata file is written. */
module CacheMixedHits {
  import opened Wrappers
  import opened CacheTypes
  import opened CacheSpec
  import opened CacheTasks
  import opened CacheTornHit

  // ---------- One put that is under way, or dropped ----------

  /** The first put ends with its insertion; then the second one gets as far as renaming its body. */
  lemma SecondPutRenames(config: Config, clock: Clock, first: PutRecord, second: PutRecord)
    returns (run: seq<World>, w: World)
    requires config.capacity >= 1 && IsPut(config, first) && IsPut(config, second) && first.key == second.key
    ensures Reaches(config, run, w) && w.serving && w.lock.None? && w.clock == clock && w.puts == {first, second}
    ensures w.tasks ==
      map[0 := Finished(Loaded), 1 := StoreAfterPut(config, first), 2 := Insert(second, clock.now)]
    ensures w.cache == map[first.key := Metadata(RecordOf(config, first), clock.now)]
    ensures var path := BodyPath(config, first.key); path in w.files && w.files[path] == second.raw
  {
    hide RecordOf, IsPut, Reaches, StoreAfterPut, BodyPath;
    var w2, w3, w4;
    run, w2 := TwoPutsBegin(config, clock, first, second);
    run, w3 := WritesBody(config, run, w2, 1, first);
    run, w4 := InsertsEntry(config, run, w3, 1, first, clock.now);
    run, w := WritesBody(config, run, w4, 2, second);
    assert w.tasks == map[0 := Finished(Loaded), 1 := StoreAfterPut(config, first), 2 := Insert(second, clock.now)];
  }

  /** A put that is dropped between renaming and insertion leaves its body under the entry of the put before, and a
      later lookup, with no other task under way, mixes the two. */
  lemma DroppedPutMixes(config: Config, clock: Clock, first: PutRecord, second: PutRecord, withBucket: bool)
    returns (run: seq<World>, hit: Lookup)
    requires config.capacity >= 1 && IsPut(config, first) && IsPut(config, second) && first.key == second.key
    requires Decode(config.codec, second.raw) == Some(second.body)
    ensures IsRun(config, run) && HitAt(run, |run| - 1, 3, first.key, hit)
    ensures 2 in run[|run| - 1].tasks && run[|run| - 1].tasks[2] == Finished(Cancelled)
    ensures MixOf(first, second, hit)
  {
    hide IsPut, Decode, IsRun, StoreAfterPut;
    var w, w';
    run, w := SecondPutRenames(config, clock, first, second);
    w' := w.(tasks := w.tasks[2 := Finished(Cancelled)]);
    assert CancelStep(w, 2, w');
    run := Extend(config, run, w, w');
    run, w', hit := LookUpHits(config, run, w', 3, first.key, withBucket, second.body);
  }

  /** So does a lookup that overlaps only one put. */
  lemma LookupDuringPutMixes(config: Config, clock: Clock, first: PutRecord, second: PutRecord, withBucket: bool)
    returns (run: seq<World>, hit: Lookup)
    requires config.capacity >= 1 && IsPut(config, first) && IsPut(config, second) && first.key == second.key
    requires Decode(config.codec, second.raw) == Some(second.body)
    ensures IsRun(config, run) && HitAt(run, |run| - 1, 3, first.key, hit)
    ensures 2 in run[|run| - 1].tasks && run[|run| - 1].tasks[2] == Insert(second, clock.now)
    ensures MixOf(first, second, hit)
  {
    hide IsPut, Decode, IsRun, StoreAfterPut;
    var w, w';
    run, w := SecondPutRenames(config, clock, first, second);
    run, w', hit := LookUpHits(config, run, w, 3, first.key, withBucket, second.body);
  }

  // ---------- A crash ----------

  /** A task that stores lists the one entry of the map, which is unexpired. */
  lemma ListsOneEntry(config: Config, run: seq<World>, w: World, t: nat, key: string, next: Proc)
    returns (longer: seq<World>, w': World)
    requires Reaches(config, run, w) && t in w.tasks && w.tasks[t] == StoreLock(next) && w.lock.None?
    requires w.cache.Keys == {key} && !Expired(w.cache[key], w.clock.now)
    ensures Reaches(config, longer, w')
    ensures w' == w.(tasks := w.tasks[t := WriteMeta([Entry(key, w.cache[key])], next)])
  {
    hide Reaches, Expired, DeleteIfThere, Exec;
    var listed := [Entry(key, w.cache[key])];
    var scan, scanned := StoreScan(w.clock.now, {key}, [], next), StoreScan(w.clock.now, {}, listed, next);
    ScanningOneEntry(config, w, t, key, next);
    var x1 := w.(lock := Some(t));
    longer := Does(config, run, w, t, x1, scan);
    var w1 := x1.(tasks := w.tasks[t := scan]);
    longer := Does(config, longer, w1, t, w1, scanned);
    var w2 := w1.(tasks := w1.tasks[t := scanned]);
    longer := Does(config, longer, w2, t, w2.(lock := None), WriteMeta(listed, next));
    w' := w2.(lock := None, tasks := w2.tasks[t := WriteMeta(listed, next)]);
    assert w'.tasks == w.tasks[t := WriteMeta(listed, next)];
  }

  /** The three steps of its scan. */
  lemma ScanningOneEntry(config: Config, w: World, t: nat, key: string, next: Proc)
    requires w.lock.None? && w.cache.Keys == {key} && !Expired(w.cache[key], w.clock.now)
    ensures var listed := [Entry(key, w.cache[key])];
      var scan, scanned := StoreScan(w.clock.now, {key}, [], next), StoreScan(w.clock.now, {}, listed, next);
      && Exec(config, w, t, StoreLock(next), w.(lock := Some(t)), scan)
      && (forall x: World :: x.cache == w.cache ==> Exec(config, x, t, scan, x, scanned))
      && (forall x: World :: Exec(config, x, t, scanned, x.(lock := None), WriteMeta(listed, next)))
  {
    hide Expired, DeleteIfThere;
    var scan := StoreScan(w.clock.now, {key}, [], next);
    assert scan.todo - {key} == {} && [] + [Entry(key, w.cache[key])] == [Entry(key, w.cache[key])];
  }

  /** A task that writes its list into the metadata file. */
  lemma WritesList(config: Config, run: seq<World>, w: World, t: nat, listed: seq<Entry>, next: Proc)
    returns (longer: seq<World>, w': World)
    requires Reaches(config, run, w) && t in w.tasks && w.tasks[t] == WriteMeta(listed, next)
    ensures Reaches(config, longer, w')
    ensures w' == w.(tasks := w.tasks[t := next], metaTemp := None, snapshot := Some(WriteEntries(listed, w.clock)))
  {
    hide Reaches, WriteEntries;
    var x := w.(metaTemp := Some(WriteEntries(listed, w.clock)));
    longer := Does(config, run, w, t, x, RenameMeta(next));
    var mid := x.(tasks := w.tasks[t := RenameMeta(next)]);
    var y := mid.(snapshot := mid.metaTemp, metaTemp := None);
    longer := Does(config, longer, mid, t, y, next);
    w' := y.(tasks := mid.tasks[t := next]);
    assert w'.tasks == w.tasks[t := next];
  }

  /** A crash, and a start of the process that reads a metadata file with one entry. */
  lemma ReadsOneEntry(config: Config, run: seq<World>, w: World, stored: StoredEntry)
    returns (longer: seq<World>, w': World)
    requires Reaches(config, run, w) && w.snapshot == Some([stored]) && stored.timestamp * SECOND <= w.clock.wall
    ensures Reaches(config, longer, w')
    ensures w' == w.(cache := map[], lock := Some(0), serving := false,
      tasks := map[0 := LoadLoop(w.clock.now, [ReadEntry(stored, w.clock)])])
  {
    hide Reaches;
    var e := ReadEntry(stored, w.clock);
    var w1 := w.(cache := map[], lock := None, tasks := map[0 := LoadStart], serving := false);
    assert CrashStep(config, w, w1);
    longer := Extend(config, run, w, w1);
    assert Readable([stored], w.clock) && ReadEntries([stored], w.clock) == [e];
    longer := Loads(config, longer, w1, w1, LoadStart, LoadLock([e]));
    var w2 := w1.(tasks := map[0 := LoadLock([e])]);
    longer := Loads(config, longer, w2, w2.(lock := Some(0)), LoadLock([e]), LoadLoop(w.clock.now, [e]));
    w' := w2.(lock := Some(0), tasks := map[0 := LoadLoop(w.clock.now, [e])]);
  }

  /** It loads the entry, which is unexpired and has its body, and begins to serve. */
  lemma LoadsOneEntry(config: Config, run: seq<World>, w: World, e: Entry)
    returns (longer: seq<World>, w': World)
    requires Reaches(config, run, w) && w.tasks == map[0 := LoadLoop(w.clock.now, [e])] && w.cache == map[]
    requires !Expired(e.meta, w.clock.now) && e.meta.record.bodyPath in w.files
    ensures Reaches(config, longer, w')
    ensures w' == w.(cache := map[e.key := e.meta], lock := None, serving := true, tasks := map[0 := Finished(Loaded)])
  {
    hide Reaches, Expired;
    var rest, x := LoadLoop(w.clock.now, []), w.(cache := map[e.key := e.meta]);
    longer := InsertsOneEntry(config, run, w, e);
    longer := Loads(config, longer, x.(tasks := map[0 := rest]), x.(lock := None), rest, Finished(Loaded));
    longer, w' := Serves(config, longer, x.(lock := None, tasks := map[0 := Finished(Loaded)]));
  }

  lemma InsertsOneEntry(config: Config, run: seq<World>, w: World, e: Entry) returns (longer: seq<World>)
    requires Reaches(config, run, w) && w.tasks == map[0 := LoadLoop(w.clock.now, [e])] && w.cache == map[]
    requires !Expired(e.meta, w.clock.now) && e.meta.record.bodyPath in w.files
    ensures Reaches(
      config, longer, w.(cache := map[e.key := e.meta], tasks := map[0 := LoadLoop(w.clock.now, [])]))
  {
    hide Reaches, Expired;
    assert [e][1..] == [];
    var begin, insert, rest := LoadLoop(w.clock.now, [e]), LoadInsert(e, w.clock.now, []), LoadLoop(w.clock.now, []);
    var test := IfExists(e.meta.record.bodyPath, insert, rest);
    longer := Loads(config, run, w, w, begin, test);
    longer := Loads(config, longer, w.(tasks := map[0 := test]), w, test, insert);
    longer := Loads(config, longer, w.(tasks := map[0 := insert]), w.(cache := map[e.key := e.meta]), insert, rest);
  }

  lemma Serves(config: Config, run: seq<World>, w: World) returns (longer: seq<World>, w': World)
    requires Reaches(config, run, w) && w.tasks == map[0 := Finished(Loaded)]
    ensures Reaches(config, longer, w') && w' == w.(serving := true)
  {
    hide Reaches;
    w' := w.(serving := true);
    assert w.tasks[0] == Finished(Loaded) && ServeStep(w, w');
    longer := Extend(config, run, w, w');
  }

  /** One step of the only task. */
  lemma Loads(config: Config, run: seq<World>, w: World, x: World, p: Proc, p': Proc) returns (longer: seq<World>)
    requires Reaches(config, run, w) && w.tasks == map[0 := p]
    requires Exec(config, w, 0, p, x.(tasks := w.tasks), p')
    ensures Reaches(config, longer, x.(tasks := map[0 := p']))
  {
    hide Exec, Reaches;
    longer := Does(config, run, w, 0, x.(tasks := w.tasks), p');
    assert w.tasks[0 := p'] == map[0 := p'];
  }

  /** The first put ends with its `store`, the second one with its insertion. */
  lemma StoredPutIsOverwritten(config: Config, clock: Clock, first: PutRecord, second: PutRecord)
    returns (run: seq<World>, w: World, stored: StoredEntry)
    requires config.capacity >= 1 && IsPut(config, first) && IsPut(config, second) && first.key == second.key
    requires config.persistent && first.withBucket
    ensures Reaches(config, run, w) && w.clock == clock && w.snapshot == Some([stored])
    ensures stored == WriteEntry(Entry(first.key, Metadata(RecordOf(config, first), clock.now)), clock)
    ensures var path := BodyPath(config, first.key); path in w.files && w.files[path] == second.raw
  {
    hide IsPut, Reaches, RecordOf, BodyPath;
    var entry := Entry(first.key, Metadata(RecordOf(config, first), clock.now));
    run, w := TwoPutsBegin(config, clock, first, second);
    run, w := WritesBody(config, run, w, 1, first);
    run, w := InsertsEntry(config, run, w, 1, first, clock.now);
    assert !Expired(entry.meta, clock.now) && w.cache == map[first.key := entry.meta];
    run, w := ListsOneEntry(config, run, w, 1, first.key, Finished(PutEnded(Stored)));
    run, w := WritesList(config, run, w, 1, [entry], Finished(PutEnded(Stored)));
    stored := WriteEntry(entry, clock);
    assert WriteEntries([entry], clock) == [stored];
    run, w := WritesBody(config, run, w, 2, second);
    run, w := InsertsEntry(config, run, w, 2, second, clock.now);
  }

  /** The first put ends with its `store`; the second one inserts its entry, and the process crashes before the
      metadata file is written again. After the restart the entry of the first put stands for the body of the second,
      though no two operations have overlapped. */
  lemma CrashMixes(config: Config, clock: Clock, first: PutRecord, second: PutRecord)
    returns (run: seq<World>, hit: Lookup)
    requires config.capacity >= 1 && IsPut(config, first) && IsPut(config, second) && first.key == second.key
    requires config.persistent && first.withBucket && Decode(config.codec, second.raw) == Some(second.body)
    ensures IsRun(config, run) && HitAt(run, |run| - 1, 3, first.key, hit)
    ensures run[|run| - 1].tasks == map[0 := Finished(Loaded), 3 := Finished(Found(first.key, hit))]
    ensures MixOf(first, second, hit)
  {
    hide IsPut, Decode, IsRun;
    var w, stored;
    run, w, stored := StoredPutIsOverwritten(config, clock, first, second);
    var meta := Metadata(RecordOf(config, first), clock.now);
    JustWrittenIsUnexpired(meta, first.key, clock);
    run, w := ReadsOneEntry(config, run, w, stored);
    run, w := LoadsOneEntry(config, run, w, ReadEntry(stored, clock));
    run, w, hit := LookUpHits(config, run, w, 3, first.key, true, second.body);
    assert w.tasks == map[0 := Finished(Loaded), 3 := Finished(Found(first.key, hit))];
  }

  lemma JustWrittenIsUnexpired(meta: Metadata, key: string, clock: Clock)
    requires meta.createdAt == clock.now
    ensures var stored := WriteEntry(Entry(key, meta), clock);
      && stored.timestamp * SECOND <= clock.wall && ReadEntry(stored, clock).meta.record == meta.record
      && !Expired(ReadEntry(stored, clock).meta, clock.now)
  {
  }
}
