/** Whether the headers and the body of a hit belong to one put. When two puts of a key overlap they need not, and
    the theorem says exactly when they do. */
module CacheTornHit {
  import opened Wrappers
  import opened CacheTypes
  import opened CacheFacts
  import opened CacheSpec
  import opened CacheTasks
  import opened CacheTaskSafety

  /** In world `i` of the run, task `t` has ended a lookup of `key` with a hit. */
  ghost predicate HitAt(run: seq<World>, i: nat, t: nat, key: string, hit: Lookup) {
    i < |run| && t in run[i].tasks && run[i].tasks[t] == Finished(Found(key, hit)) && hit.Hit?
  }

  // ---------- Building a run ----------

  ghost predicate Reaches(config: Config, run: seq<World>, w: World) {
    IsRun(config, run) && run[|run| - 1] == w
  }

  lemma Extend(config: Config, run: seq<World>, w: World, w': World) returns (longer: seq<World>)
    requires Reaches(config, run, w) && WorldStep(config, w, w')
    ensures Reaches(config, longer, w')
  {
    longer := run + [w'];
    forall i | 0 <= i < |longer| - 1 ensures StepAt(config, longer, i) {
      if i < |run| - 1 {
        assert StepAt(config, run, i);
      }
    }
  }

  lemma Does(config: Config, run: seq<World>, w: World, t: nat, x: World, p': Proc) returns (longer: seq<World>)
    requires Reaches(config, run, w) && t in w.tasks && Exec(config, w, t, w.tasks[t], x, p')
    ensures Reaches(config, longer, x.(tasks := w.tasks[t := p']))
  {
    hide Exec;
    var w' := x.(tasks := w.tasks[t := p']);
    assert TaskStep(config, w, t, w');
    longer := Extend(config, run, w, w');
  }

  lemma Starts(config: Config, run: seq<World>, w: World, t: nat, p: Proc, w': World) returns (longer: seq<World>)
    requires Reaches(config, run, w) && StartStep(config, w, t, p, w')
    ensures Reaches(config, longer, w')
  {
    longer := Extend(config, run, w, w');
  }

  /** A first start with nothing to load, up to the first request. */
  lemma Boot(config: Config, clock: Clock) returns (run: seq<World>, w: World)
    ensures Reaches(config, run, w)
    ensures w == World(map[], map[], None, None, None, map[0 := Finished(Loaded)], true, clock, {})
  {
    var w0 := World(map[], map[], None, None, None, map[0 := LoadStart], false, clock, {});
    run := [w0];
    run := Does(config, run, w0, 0, w0, Finished(Loaded));
    var w1 := w0.(tasks := w0.tasks[0 := Finished(Loaded)]);
    w := w1.(serving := true);
    assert w1.tasks[0] == Finished(Loaded) && ServeStep(w1, w);
    run := Extend(config, run, w1, w);
    assert w.tasks == map[0 := Finished(Loaded)];
  }

  /** Task `t` writes the body of its put and renames it into place. */
  lemma WritesBody(config: Config, run: seq<World>, w: World, t: nat, job: PutRecord)
    returns (longer: seq<World>, w': World)
    requires Reaches(config, run, w) && t in w.tasks && w.tasks[t] == WriteTemp(job)
    ensures Reaches(config, longer, w')
    ensures w' == w.(files := w'.files, tasks := w.tasks[t := Insert(job, w.clock.now)])
    ensures BodyPath(config, job.key) in w'.files && w'.files[BodyPath(config, job.key)] == job.raw
  {
    var path := BodyPath(config, job.key);
    BodyPathIsAShardBin(config, job.key);
    hide Reaches, BodyPath;
    var x := w.(files := w.files[TempOf(path) := job.raw]);
    longer := Does(config, run, w, t, x, RenameTemp(job));
    var mid := x.(tasks := w.tasks[t := RenameTemp(job)]);
    var y := mid.(files := (mid.files - {TempOf(path)})[path := job.raw]);
    longer := Does(config, longer, mid, t, y, Insert(job, w.clock.now));
    w' := y.(tasks := mid.tasks[t := Insert(job, w.clock.now)]);
    assert w'.tasks == w.tasks[t := Insert(job, w.clock.now)];
  }

  /** Task `t` inserts its entry; there is room, or an entry of the same key. */
  lemma InsertsEntry(config: Config, run: seq<World>, w: World, t: nat, job: PutRecord, createdAt: int)
    returns (longer: seq<World>, w': World)
    requires Reaches(config, run, w) && t in w.tasks && w.tasks[t] == Insert(job, createdAt)
    requires w.lock.None? && !MustEvict(config, w.cache, job.key)
    ensures Reaches(config, longer, w')
    ensures w' == w.(
      cache := w.cache[job.key := Metadata(RecordOf(config, job), createdAt)],
      tasks := w.tasks[t := StoreAfterPut(config, job)])
  {
    hide RecordOf;
    var x := w.(cache := w.cache[job.key := Metadata(RecordOf(config, job), createdAt)]);
    longer := Does(config, run, w, t, x, StoreAfterPut(config, job));
    w' := x.(tasks := w.tasks[t := StoreAfterPut(config, job)]);
  }

  /** Two puts begin in a fresh process. */
  lemma TwoPutsBegin(config: Config, clock: Clock, first: PutRecord, second: PutRecord)
    returns (run: seq<World>, w: World)
    requires IsPut(config, first) && IsPut(config, second)
    ensures Reaches(config, run, w)
    ensures w == World(map[], map[], None, None, None,
      map[0 := Finished(Loaded), 1 := WriteTemp(first), 2 := WriteTemp(second)], true, clock, {first, second})
  {
    hide IsPut, Reaches;
    var w0;
    run, w0 := Boot(config, clock);
    var w1 := w0.(tasks := w0.tasks[1 := WriteTemp(first)], puts := w0.puts + {first});
    run := Starts(config, run, w0, 1, WriteTemp(first), w1);
    w := w1.(tasks := w1.tasks[2 := WriteTemp(second)], puts := w1.puts + {second});
    run := Starts(config, run, w1, 2, WriteTemp(second), w);
    assert w.puts == {first, second};
  }

  /** Two overlapping puts of one key: `first` renames its body into place, then `second` does; `second` inserts
      its entry, then `first` does. */
  lemma OverlappingPuts(config: Config, clock: Clock, first: PutRecord, second: PutRecord)
    returns (run: seq<World>, w: World)
    requires config.capacity >= 1 && IsPut(config, first) && IsPut(config, second) && first.key == second.key
    ensures Reaches(config, run, w) && w.serving && w.lock.None? && w.clock == clock && w.tasks.Keys == {0, 1, 2}
    ensures w.puts == {first, second}
    ensures w.cache == map[first.key := Metadata(RecordOf(config, first), clock.now)]
    ensures var path := BodyPath(config, first.key); path in w.files && w.files[path] == second.raw
  {
    hide RecordOf, IsPut, Reaches, StoreAfterPut, BodyPath;
    var w2, w3, w4, w5;
    run, w2 := TwoPutsBegin(config, clock, first, second);
    run, w3 := WritesBody(config, run, w2, 1, first);
    run, w4 := WritesBody(config, run, w3, 2, second);
    run, w5 := InsertsEntry(config, run, w4, 2, second, clock.now);
    run, w := InsertsEntry(config, run, w5, 1, first, clock.now);
  }

  /** A lookup of a key that is in the map, unexpired and with a readable body, that nothing interrupts. */
  lemma LookUpHits(
    config: Config, run: seq<World>, w: World, t: nat, key: string, withBucket: bool, body: Bytes)
    returns (longer: seq<World>, w': World, hit: Lookup)
    requires Reaches(config, run, w) && w.serving && w.lock.None? && t !in w.tasks
    requires key in w.cache && !Expired(w.cache[key], w.clock.now) && w.cache[key].record.bodyPath in w.files
    requires Decode(config.codec, w.files[w.cache[key].record.bodyPath]) == Some(body)
    ensures Reaches(config, longer, w') && w' == w.(tasks := w.tasks[t := Finished(Found(key, hit))])
    ensures var record := w.cache[key].record;
      hit == Hit(record.headers, record.status, body, record.originalEncoding)
  {
    hide Reaches, MissAfter, Decode;
    var meta := w.cache[key];
    var w1 := w.(tasks := w.tasks[t := LookUp(key, withBucket)]);
    longer := Starts(config, run, w, t, LookUp(key, withBucket), w1);
    var read := ReadBody(key, meta, withBucket);
    var test := IfExists(meta.record.bodyPath, read, RemoveKey(key, MissAfter(config, key, withBucket)));
    longer := Does(config, longer, w1, t, w1, test);
    var w2 := w1.(tasks := w1.tasks[t := test]);
    longer := Does(config, longer, w2, t, w2, read);
    var w3 := w2.(tasks := w2.tasks[t := read]);
    hit := Hit(meta.record.headers, meta.record.status, body, meta.record.originalEncoding);
    hide Expired;
    longer := Does(config, longer, w3, t, w3, Finished(Found(key, hit)));
    w' := w3.(tasks := w3.tasks[t := Finished(Found(key, hit))]);
    assert w'.tasks == w.tasks[t := Finished(Found(key, hit))];
  }

  /** So for any two accepted puts of one key there is a run that ends in a hit with the headers and status of one
      and the body of the other. */
  lemma HitMayMixTwoPuts(config: Config, clock: Clock, first: PutRecord, second: PutRecord, withBucket: bool)
    returns (run: seq<World>, hit: Lookup)
    requires config.capacity >= 1 && IsPut(config, first) && IsPut(config, second) && first.key == second.key
    requires Decode(config.codec, second.raw) == Some(second.body)
    ensures IsRun(config, run) && HitAt(run, |run| - 1, 3, first.key, hit) && run[|run| - 1].puts == {first, second}
    ensures hit.Hit? && hit.headers == first.response.headers && hit.status == first.response.status
    ensures hit.body == second.body
  {
    hide IsPut, Decode, IsRun;
    var w, w';
    run, w := OverlappingPuts(config, clock, first, second);
    assert 3 !in w.tasks.Keys;
    run, w', hit := LookUpHits(config, run, w, 3, first.key, withBucket, second.body);
  }

  // ---------- Exactly when hits are whole ----------

  ghost predicate IsOnePut(puts: set<PutRecord>, hit: Lookup) {
    hit.Hit? && exists c :: c in puts && MixOf(c, c, hit)
  }

  /** The hit has the headers and status of `a` and the body of `b`. */
  predicate MixOf(a: PutRecord, b: PutRecord, hit: Lookup) {
    hit.Hit? && hit.headers == a.response.headers && hit.status == a.response.status && hit.body == b.body
  }

  /** In every run that puts nothing else under `key`, and nothing under a key with the same checksum, every hit for
      `key` is one of `puts`. */
  ghost predicate HitsAreWhole(config: Config, key: string, puts: set<PutRecord>) {
    forall run, i, t, hit :: IsRun(config, run) && HitAt(run, i, t, key, hit) && OnlyPuts(config, run[i], key, puts) ==>
      IsOnePut(puts, hit)
  }

  ghost predicate OnlyPuts(config: Config, w: World, key: string, puts: set<PutRecord>) {
    forall job :: job in w.puts && config.crc(job.key) == config.crc(key) ==> job in puts
  }

  /** The headers of any of the puts with the body of any other are again one of them. */
  ghost predicate ClosedUnderMixing(puts: set<PutRecord>) {
    forall a, b :: HasMix(puts, a, b)
  }

  ghost predicate HasMix(puts: set<PutRecord>, a: PutRecord, b: PutRecord) {
    a in puts && b in puts ==> exists c :: c in puts && SameResponseAndBody(c, a, b)
  }

  predicate SameResponseAndBody(c: PutRecord, a: PutRecord, b: PutRecord) {
    c.response.headers == a.response.headers && c.response.status == a.response.status && c.body == b.body
  }

  /** Hits for a key are whole, over all interleavings, if and only if mixing its puts yields nothing new. */
  lemma HitsAreWholeIffClosed(config: Config, key: string, puts: set<PutRecord>)
    requires config.capacity >= 1
    requires forall job :: job in puts ==> job.key == key && IsPut(config, job) && ReadsBack(config, job.body)
    ensures HitsAreWhole(config, key, puts) <==> ClosedUnderMixing(puts)
  {
    if ClosedUnderMixing(puts) {
      forall run, i, t, hit
        | IsRun(config, run) && HitAt(run, i, t, key, hit) && OnlyPuts(config, run[i], key, puts)
        ensures IsOnePut(puts, hit)
      {
        MixedHitIsOnePut(config, run, i, t, key, hit, puts);
      }
    } else {
      var a, b :| !HasMix(puts, a, b);
      BodyRoundTrips(config, b.body);
      var run, hit := HitMayMixTwoPuts(config, Clock(0, 0), a, b, true);
      assert OnlyPuts(config, run[|run| - 1], key, puts);
      forall c | c in puts ensures !MixOf(c, c, hit) {
        assert !SameResponseAndBody(c, a, b);
      }
      assert !IsOnePut(puts, hit);
    }
  }

  lemma MixedHitIsOnePut(
    config: Config, run: seq<World>, i: nat, t: nat, key: string, hit: Lookup, puts: set<PutRecord>)
    requires forall job :: job in puts ==> job.key == key && IsPut(config, job) && ReadsBack(config, job.body)
    requires IsRun(config, run) && HitAt(run, i, t, key, hit) && OnlyPuts(config, run[i], key, puts)
    requires ClosedUnderMixing(puts)
    ensures IsOnePut(puts, hit)
  {
    hide IsRun, IsPut, ReadsBack;
    assert OwnChecksum(config, run[i].puts, key);
    EveryHitIsGenuine(config, run, i, t, key, hit);
    var a :| a in run[i].puts && ServesBodyOf(config, a, key, hit);
    var b :| b in run[i].puts && ServesHeadersOf(config, b, key, hit);
    assert HasMix(puts, b, a);
    var c :| c in puts && SameResponseAndBody(c, b, a);
    assert MixOf(c, c, hit);
  }
}
