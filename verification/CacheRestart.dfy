/** Runs over several lives of the process, with operations one at a time. A restart is one more step of the bounded
    map: it keeps what the metadata file lists, with the time of the file's last rewrite. From life to life the
    configuration may change in everything but where bodies lie and how they are decoded. */
module CacheRestart {
  import opened Wrappers
  import opened CacheTypes
  import opened CacheFacts
  import opened CacheSpec
  import opened CacheRefinement
  import opened CacheReload
  import opened CacheRuns

  // ---------- When the metadata file is up to date ----------

  /** The metadata file was last rewritten in the second `stamp` and lists exactly the entries of the map that were
      unexpired at `now`; their bodies are there. */
  ghost predicate Current(config: Config, s: State, now: int, stamp: nat) {
    && Stamped(config, s, stamp) && ListedKeys(s) <= s.cache.Keys
    && (forall key, record :: Lists(s, key, record) <==> ListedNow(s, key, record, now))
    && (forall k :: k in s.cache ==> s.cache[k].createdAt <= now && s.cache[k].record.bodyPath == BodyPath(config, k))
    && (forall k :: k in s.cache && !Expired(s.cache[k], now) ==> BodyPath(config, k) in s.files)
  }

  ghost predicate ListedNow(s: State, key: string, record: Record, now: int) {
    key in s.cache && !Expired(s.cache[key], now) && s.cache[key].record == record
  }

  lemma StoreIsCurrent(config: Config, keys: set<string>, s: State, m: Model, clock: Clock, s': State)
    requires NoCollision(config, keys) && Refines(config, keys, s, m, clock.now) && StorePass(s, clock, s')
    ensures Current(config, s', clock.now, clock.wall / SECOND)
  {
    forall k | k in s.cache
      ensures s.cache[k].record.bodyPath == BodyPath(config, k) && s.cache[k].createdAt <= clock.now
    {
      assert Shows(config, s, k, m[k], clock.now);
    }
    StoreStamps(config, s, clock, s');
    StoreRefines(config, keys, s, clock, s', m);
    forall k | k in s'.cache && !Expired(s'.cache[k], clock.now) ensures BodyPath(config, k) in s'.files {
      assert Shows(config, s', k, m[k], clock.now);
    }
    assert forall key, record :: ListedNow(s', key, record, clock.now) <==> ListedNow(s, key, record, clock.now);
  }

  /** A cleaner keeps what has not expired by the file's own times and has a body that the map refers to. */
  lemma {:induction false} CleanKeepsLive(
    config: Config, shard: Option<nat>, valid: set<FilePath>, entries: seq<Entry>, files: Files, now: int, i: nat)
    requires i < |entries| && !Expired(entries[i].meta, now)
    requires entries[i].meta.record.bodyPath in valid && entries[i].meta.record.bodyPath in files
    ensures entries[i] in CleanEntries(config, shard, valid, entries, files, now).0
    decreases |entries|
  {
    var n := |entries| - 1;
    if i < n {
      CleanKeepsLive(config, shard, valid, entries[..n], files, now, i);
    } else {
      CleanEntriesSparesValid(config, shard, valid, entries[..n], files, now);
    }
  }

  /** Nothing that is listed has outlived its ttl since the last rewrite. */
  ghost predicate StillFresh(s: State, stamp: nat, clock: Clock)
    requires s.snapshot.Some?
  {
    stamp * SECOND <= clock.wall && forall k :: 0 <= k < |s.snapshot.value| ==>
      !Expired(LoadedAs(s.snapshot.value[k].record, stamp, clock), clock.now)
  }

  /** The cleaner keeps everything that is listed. */
  lemma CleaningKeepsListed(
    config: Config, s: State, now: int, stamp: nat, shard: Option<nat>, clock: Clock, key: string, record: Record)
    requires Current(config, s, now, stamp) && StillFresh(s, stamp, clock) && Lists(s, key, record)
    ensures var s' := CleanPass(config, s, shard, clock); s'.snapshot.Some? && Lists(s', key, record)
  {
    hide BodyPath, Expired, WithoutOrphansIn;
    var stored, valid := s.snapshot.value, Paths(s.cache);
    var entries := ReadEntries(stored, clock);
    var kept := CleanEntries(config, shard, valid, entries, s.files, clock.now).0;
    var i :| 0 <= i < |stored| && stored[i].key == key && stored[i].record == record;
    assert ListedNow(s, key, record, now);
    assert record.bodyPath in valid && entries[i].meta == LoadedAs(record, stamp, clock);
    CleanKeepsLive(config, shard, valid, entries, s.files, clock.now, i);
    var j :| 0 <= j < |kept| && kept[j] == entries[i];
    assert WriteEntries(kept, clock)[j].key == key;
  }

  lemma CleaningStaysCurrent(config: Config, s: State, now: int, stamp: nat, shard: Option<nat>, clock: Clock)
    requires Current(config, s, now, stamp) && StillFresh(s, stamp, clock)
    ensures Current(config, CleanPass(config, s, shard, clock), now, clock.wall / SECOND)
  {
    hide BodyPath, Expired, WithoutOrphansIn, Lists;
    var entries, s' := ReadEntries(s.snapshot.value, clock), CleanPass(config, s, shard, clock);
    var kept := CleanEntries(config, shard, Paths(s.cache), entries, s.files, clock.now).0;
    CleanKeepsEntries(config, shard, Paths(s.cache), entries, s.files, clock.now);
    RewritingStamps(config, s, s.snapshot.value, kept, clock, s');
    forall key, record | Lists(s, key, record) ensures Lists(s', key, record) {
      CleaningKeepsListed(config, s, now, stamp, shard, clock, key, record);
    }
    CleaningDeletesOnlyOrphans(config, s, shard, clock);
    assert forall key, record :: ListedNow(s', key, record, now) <==> ListedNow(s, key, record, now);
  }

  lemma JustStoredIsFresh(config: Config, s: State, clock: Clock)
    requires Stamped(config, s, clock.wall / SECOND)
    ensures StillFresh(s, clock.wall / SECOND, clock)
  {
  }

  lemma RemovalIsCurrent(
    config: Config, keys: set<string>, s: State, m: Model, key: string, clock: Clock, s': State)
    requires NoCollision(config, keys) && Refines(config, keys, s, m, clock.now) && config.persistent
    requires AfterRemoval(config, s, key, true, clock, s')
    ensures Current(config, s', clock.now, clock.wall / SECOND)
  {
    hide Refines, StorePass;
    var shard := Some(ShardId(config, key));
    var mid :| StorePass(s, clock, mid) && s' == CleanPass(config, mid, shard, clock);
    StoreIsCurrent(config, keys, s, m, clock, mid);
    JustStoredIsFresh(config, mid, clock);
    CleaningStaysCurrent(config, mid, clock.now, clock.wall / SECOND, shard, clock);
  }

  lemma GetStaysCurrent(
    config: Config, keys: set<string>, s: State, m: Model, key: string, clock: Clock, s': State, result: Lookup,
    now: int, stamp: nat)
    returns (now': int, stamp': nat)
    requires NoCollision(config, keys) && key in keys && Refines(config, keys, s, m, clock.now) && config.persistent
    requires GetPass(config, s, key, true, clock, s', result) && Current(config, s, now, stamp)
    ensures Current(config, s', now', stamp')
  {
    hide Current, AfterRemoval;
    now', stamp' := now, stamp;
    if s' != s {
      now', stamp' := clock.now, clock.wall / SECOND;
      RemovalRefines(config, keys, s, m, key, clock.now);
      if key in s.cache {
        assert Shows(config, s, key, m[key], clock.now);
        var removed := s.(cache := s.cache - {key}, files := s.files - {BodyPath(config, key)});
        RemovalIsCurrent(config, keys, removed, m - {key}, key, clock, s');
      } else {
        assert m - {key} == m && s.cache - {key} == s.cache;
        RemovalIsCurrent(config, keys, s.(files := s.files - {BodyPath(config, key)}), m, key, clock, s');
      }
    }
  }

  lemma PutIsCurrent(config: Config, keys: set<string>, s: State, m: Model, op: Op, clock: Clock, s': State)
    requires op.PutOp? && NoCollision(config, keys) && op.key in keys && Refines(config, keys, s, m, clock.now)
    requires Faithful(config, op) && config.persistent && op.withBucket
    requires PutPass(config, s, op.key, op.response, op.body, true, clock, s', Stored)
    ensures Current(config, s', clock.now, clock.wall / SECOND)
  {
    hide Current, Refines, Inserts, StorePass;
    var raw := Encode(config.strategy, config.codec, op.body).value;
    var victim :| PutWithVictim(config, s, op.key, op.response, raw, victim, true, clock, s');
    var mid :| Inserts(config, s, op.key, op.response, raw, victim, true, clock, mid) && StorePass(mid, clock, s');
    BodyRoundTrips(config, op.body);
    InsertsRefines(config, keys, s, op, raw, victim, clock, mid, m);
    var m' := (if victim.Some? then m - {victim.value} else m)[
      op.key := ItemOf(config, op.response, op.body, clock.now)];
    StoreIsCurrent(config, keys, mid, m', clock, s');
  }

  /** In a persistent cache whose callers hand over the bucket, every operation leaves the metadata file up to date;
      a periodic cleaning does as long as nothing listed has outlived its ttl since the last rewrite. */
  lemma StepStaysCurrent(
    config: Config, keys: set<string>, s: State, op: Op, clock: Clock, s': State, out: Outcome, m: Model, now: int,
    stamp: nat)
    returns (now': int, stamp': nat)
    requires NoCollision(config, keys) && Within(op, keys) && Faithful(config, op) && config.persistent
    requires op.GetOp? || op.PutOp? ==> op.withBucket
    requires Refines(config, keys, s, m, clock.now) && Step(config, s, op, clock, s', out)
    requires Current(config, s, now, stamp) && (op.CleanOp? ==> StillFresh(s, stamp, clock))
    ensures Current(config, s', now', stamp')
  {
    hide Current, Refines, GetPass, PutPass, StorePass, StillFresh, Faithful;
    now', stamp' := clock.now, clock.wall / SECOND;
    match op
    case GetOp(key, _) =>
      now', stamp' := GetStaysCurrent(config, keys, s, m, key, clock, s', out.result, now, stamp);
    case PutOp(_, _, _, _) =>
      if out.outcome == Stored {
        PutIsCurrent(config, keys, s, m, op, clock, s');
      } else {
        RefusedPutChangesNothing(config, s, op, clock, s', out.outcome);
        now', stamp' := now, stamp;
      }
    case StoreOp => StoreIsCurrent(config, keys, s, m, clock, s');
    case CleanOp(shard) => now' := now; CleaningStaysCurrent(config, s, now, stamp, shard, clock);
    case OrphanOp => now', stamp' := now, stamp; OrphanCleanupStaysCurrent(config, s, now, stamp);
  }

  lemma RefusedPutChangesNothing(config: Config, s: State, op: Op, clock: Clock, s': State, outcome: PutOutcome)
    requires op.PutOp? && outcome != Stored
    requires PutPass(config, s, op.key, op.response, op.body, op.withBucket, clock, s', outcome)
    ensures s' == s
  {
  }

  lemma OrphanCleanupStaysCurrent(config: Config, s: State, now: int, stamp: nat)
    requires Current(config, s, now, stamp)
    ensures Current(config, OrphanPass(s), now, stamp)
  {
    var s' := OrphanPass(s);
    forall k | k in s.cache && !Expired(s.cache[k], now) ensures BodyPath(config, k) in s'.files {
      BodyPathIsAShardBin(config, k);
      assert s.cache[k].record.bodyPath in Paths(s.cache);
    }
    assert forall key, record :: Lists(s', key, record) <==> Lists(s, key, record);
    assert forall key, record :: ListedNow(s', key, record, now) <==> ListedNow(s, key, record, now);
  }

  // ---------- One restart ----------

  /** Two configurations that agree in where bodies lie and how they are decoded. */
  ghost predicate SameStorage(config: Config, config': Config) {
    config.crc == config'.crc && config.shardCount == config'.shardCount && config.codec == config'.codec
  }

  function Redated(item: Item, stamp: nat, read: Clock): Item {
    item.(createdAt := read.now - (read.wall - stamp * SECOND))
  }

  /** The bounded map after a restart: what had not expired when the file was made and has not expired by the time
      of its last rewrite. */
  function AfterRestart(m: Model, now: int, stamp: nat, read: Clock): Model {
    map k | k in m && !ItemExpired(m[k], now) && !ItemExpired(Redated(m[k], stamp, read), read.now)
      :: Redated(m[k], stamp, read)
  }

  /** The state in which the new process begins, given the state that the old one left. */
  function Restarted(s: State, read: Clock): State {
    LoadPass(s.(cache := map[]), read)
  }

  lemma {:induction false} LoadKeepsFile(entries: seq<Entry>, files: Files, now: int, p: FilePath)
    requires p in files
    requires forall k :: 0 <= k < |entries| ==> entries[k].meta.record.bodyPath == p ==> !Expired(entries[k].meta, now)
    ensures SameFile(files, LoadEntries(entries, map[], files, now).1, p)
    decreases |entries|
  {
    if entries != [] {
      LoadKeepsFile(entries[..|entries| - 1], files, now, p);
    }
  }

  /** `load` deletes no body of an entry that it loads. */
  lemma LoadKeepsLoadedBody(config: Config, s: State, stamp: nat, read: Clock, key: string, record: Record)
    requires Stamped(config, s, stamp) && NoCollision(config, ListedKeys(s)) && stamp * SECOND <= read.wall
    requires Lists(s, key, record) && BodyPath(config, key) in s.files
    requires !Expired(LoadedAs(record, stamp, read), read.now)
    ensures SameFile(s.files, Restarted(s, read).files, BodyPath(config, key))
  {
    hide BodyPath, Expired;
    var stored := s.snapshot.value;
    var entries := ReadEntries(stored, read);
    var i :| 0 <= i < |stored| && stored[i].key == key && stored[i].record == record;
    assert stored[i] in stored;
    forall k | 0 <= k < |entries| && entries[k].meta.record.bodyPath == BodyPath(config, key)
      ensures !Expired(entries[k].meta, read.now)
    {
      assert stored[k] in stored;
      SamePathIffSameCrc(config, stored[k].key, key);
    }
    LoadKeepsFile(entries, s.files, read.now, BodyPath(config, key));
  }

  lemma RestartRefines(
    config: Config, config': Config, keys: set<string>, s: State, m: Model, end: int, now: int, stamp: nat, read: Clock)
    requires NoCollision(config, keys) && Refines(config, keys, s, m, end) && Current(config, s, now, stamp)
    requires stamp * SECOND <= read.wall && SameStorage(config, config')
    ensures Refines(config', keys, Restarted(s, read), AfterRestart(m, now, stamp, read), read.now)
  {
    var s', m' := Restarted(s, read), AfterRestart(m, now, stamp, read);
    forall key: string
      ensures key in s'.cache <==> key in m'
      ensures key in m' ==> Shows(config', s', key, m'[key], read.now)
    {
      KeyRestarts(config, config', keys, s, m, end, now, stamp, read, key);
    }
  }

  lemma KeyRestarts(
    config: Config, config': Config, keys: set<string>, s: State, m: Model, end: int, now: int, stamp: nat, read: Clock,
    key: string)
    requires NoCollision(config, keys) && Refines(config, keys, s, m, end) && Current(config, s, now, stamp)
    requires stamp * SECOND <= read.wall && SameStorage(config, config')
    ensures var s', m' := Restarted(s, read), AfterRestart(m, now, stamp, read);
      && (key in s'.cache <==> key in m')
      && (key in m' ==> Shows(config', s', key, m'[key], read.now))
  {
    if key in s.cache && !Expired(s.cache[key], now) {
      var record := s.cache[key].record;
      assert Shows(config, s, key, m[key], end) && ListedNow(s, key, record, now);
      LoadOfListed(config, s, stamp, read, key, record);
      if !Expired(LoadedAs(record, stamp, read), read.now) {
        LoadKeepsLoadedBody(config, s, stamp, read, key, record);
      }
    } else {
      if key in m {
        assert Shows(config, s, key, m[key], end);
      }
      forall record ensures !Lists(s, key, record) {
        assert !ListedNow(s, key, record, now);
      }
      LoadOfUnlisted(config, s, stamp, read, key);
    }
  }

  // ---------- Many lives ----------

  /** One life: it loads at `read`; if another life follows, the metadata file that it leaves was made at `now` and
      last rewritten in the second `stamp`. */
  datatype Life = Life(config: Config, read: Clock, states: seq<State>, events: seq<Event>, now: int, stamp: nat)

  ghost predicate LifeIsFaithful(life: Life, keys: set<string>) {
    && RealRun(life.config, life.states, life.events) && TimeOrdered(life.events)
    && (forall i :: 0 <= i < |life.events| ==>
          && life.read.now <= life.events[i].clock.now
          && Within(life.events[i].op, keys) && Faithful(life.config, life.events[i].op))
  }

  ghost predicate Follows(life: Life, next: Life)
    requires |life.states| == |life.events| + 1
  {
    && Current(life.config, life.states[|life.events|], life.now, life.stamp)
    && SameStorage(life.config, next.config) && life.stamp * SECOND <= next.read.wall
    && |next.states| > 0 && next.states[0] == Restarted(life.states[|life.events|], next.read)
  }

  ghost predicate LivesRun(lives: seq<Life>, keys: set<string>) {
    && (forall i :: 0 <= i < |lives| ==> LifeIsFaithful(lives[i], keys) && NoCollision(lives[i].config, keys))
    && (|lives| > 0 ==> lives[0].states[0].cache == map[])
    && (forall i :: 0 <= i < |lives| - 1 ==> Follows(lives[i], lives[i + 1]))
  }

  /** The bounded map over one life, from `models[0]`, with the answers of the life's events. */
  ghost predicate ModelLife(life: Life, models: seq<Model>) {
    && |models| == |life.events| + 1
    && forall i :: 0 <= i < |life.events| ==> ModelStepAt(life.config, models, life.events, i)
  }

  function LastTime(life: Life, n: nat): int
    requires n <= |life.events|
  {
    if n == 0 then life.read.now else life.events[n - 1].clock.now
  }

  lemma {:induction false} LifeRefines(keys: set<string>, life: Life, m: Model, n: nat) returns (models: seq<Model>)
    requires NoCollision(life.config, keys) && LifeIsFaithful(life, keys) && n <= |life.events|
    requires Refines(life.config, keys, life.states[0], m, life.read.now)
    ensures |models| == n + 1 && models[0] == m
    ensures forall i :: 0 <= i < n ==> ModelStepAt(life.config, models, life.events, i)
    ensures Refines(life.config, keys, life.states[n], models[n], LastTime(life, n))
    decreases n
  {
    hide ModelStep, Refines, Step, Current;
    if n == 0 {
      models := [m];
    } else {
      var before := LifeRefines(keys, life, m, n - 1);
      var config, e := life.config, life.events[n - 1];
      TimePasses(config, keys, life.states[n - 1], before[n - 1], LastTime(life, n - 1), e.clock.now);
      assert RealStepAt(config, life.states, life.events, n - 1);
      var m' := StepRefines(config, keys, life.states[n - 1], e.op, e.clock, life.states[n], e.out, before[n - 1]);
      models := before + [m'];
      forall i | 0 <= i < n ensures ModelStepAt(config, models, life.events, i) {
        if i < n - 1 {
          assert ModelStepAt(config, before, life.events, i);
        }
      }
    }
  }

  // ---------- Lives that leave an up-to-date metadata file ----------

  /** Nothing that is listed has outlived its ttl since it was written. */
  ghost predicate NothingOutlived(s: State, clock: Clock) {
    s.snapshot.Some? ==> forall e :: e in s.snapshot.value ==>
      e.timestamp * SECOND <= clock.wall && !Expired(LoadedAs(e.record, e.timestamp, clock), clock.now)
  }

  /** The operation is handed the bucket; and a cleaning comes before anything listed has outlived its ttl. */
  ghost predicate KeepsUp(life: Life, i: nat)
    requires i < |life.events| && i < |life.states|
  {
    var e := life.events[i];
    (e.op.GetOp? || e.op.PutOp? ==> e.op.withBucket) && (e.op.CleanOp? ==> NothingOutlived(life.states[i], e.clock))
  }

  ghost predicate Rewrites(e: Event) {
    e.op.StoreOp? || (e.op.PutOp? && e.op.withBucket && e.out == Put(Stored))
  }

  lemma CleaningInTime(config: Config, s: State, now: int, stamp: nat, clock: Clock) returns (stamp': nat)
    requires Current(config, s, now, stamp) && NothingOutlived(s, clock)
    ensures Current(config, s, now, stamp') && StillFresh(s, stamp', clock)
  {
    var stored := s.snapshot.value;
    stamp' := if stored == [] then 0 else stamp;
    forall k | 0 <= k < |stored| ensures !Expired(LoadedAs(stored[k].record, stamp', clock), clock.now) {
      assert stored[k] in stored;
    }
    if stored != [] {
      assert stored[0] in stored;
    }
  }

  /** The metadata file is up to date at the end of every life of a persistent cache whose callers hand over the
      bucket, as soon as something has been stored, if no cleaning comes too late. */
  lemma {:induction false} LifeEndsCurrent(keys: set<string>, life: Life, m: Model, from: nat, n: nat)
    returns (now: int, stamp: nat)
    requires NoCollision(life.config, keys) && LifeIsFaithful(life, keys) && life.config.persistent
    requires Refines(life.config, keys, life.states[0], m, life.read.now)
    requires from < n <= |life.events| && Rewrites(life.events[from])
    requires forall i :: from < i < n ==> KeepsUp(life, i)
    ensures Current(life.config, life.states[n], now, stamp)
    decreases n
  {
    hide Refines, Current, Step, PutPass, StorePass, Faithful, NothingOutlived, StillFresh;
    var config, e, s, s' := life.config, life.events[n - 1], life.states[n - 1], life.states[n];
    var models := LifeRefines(keys, life, m, n - 1);
    TimePasses(config, keys, s, models[n - 1], LastTime(life, n - 1), e.clock.now);
    assert RealStepAt(config, life.states, life.events, n - 1);
    if n - 1 == from {
      now, stamp := e.clock.now, e.clock.wall / SECOND;
      RewritingIsCurrent(config, keys, s, e, s', models[n - 1]);
    } else {
      now, stamp := LifeEndsCurrent(keys, life, m, from, n - 1);
      assert KeepsUp(life, n - 1);
      if e.op.CleanOp? {
        stamp := CleaningInTime(config, s, now, stamp, e.clock);
      }
      now, stamp := StepStaysCurrent(config, keys, s, e.op, e.clock, s', e.out, models[n - 1], now, stamp);
    }
  }

  lemma RewritingIsCurrent(config: Config, keys: set<string>, s: State, e: Event, s': State, m: Model)
    requires NoCollision(config, keys) && Within(e.op, keys) && Faithful(config, e.op) && config.persistent
    requires Refines(config, keys, s, m, e.clock.now) && Step(config, s, e.op, e.clock, s', e.out) && Rewrites(e)
    ensures Current(config, s', e.clock.now, e.clock.wall / SECOND)
  {
    hide Refines, Current, PutPass, StorePass, Faithful;
    if e.op.StoreOp? {
      StoreIsCurrent(config, keys, s, m, e.clock, s');
    } else {
      PutIsCurrent(config, keys, s, m, e.op, e.clock, s');
    }
  }

  /** The bounded map over the first `n` lives. */
  ghost predicate ModelLives(lives: seq<Life>, runs: seq<seq<Model>>, n: nat)
    requires n <= |lives|
  {
    && |runs| == n
    && (forall i :: 0 <= i < n ==> ModelLife(lives[i], runs[i]))
    && (n > 0 ==> runs[0][0] == map[])
    && (forall i :: 0 <= i < n - 1 ==> RestartStep(lives[i], lives[i + 1], runs[i], runs[i + 1]))
  }

  ghost predicate RestartStep(life: Life, next: Life, models: seq<Model>, models': seq<Model>) {
    && models != [] && models' != []
    && models'[0] == AfterRestart(models[|models| - 1], life.now, life.stamp, next.read)
  }

  /** Every run over several lives of the process is a run of the bounded map with the same answers, in which a
      restart drops what has expired and gives the rest the time of the last rewrite. */
  lemma {:induction false} LivesRefine(keys: set<string>, lives: seq<Life>, n: nat) returns (runs: seq<seq<Model>>)
    requires LivesRun(lives, keys) && n <= |lives|
    ensures ModelLives(lives, runs, n)
    ensures n > 0 ==> var life, last := lives[n - 1], |lives[n - 1].events|;
      Refines(life.config, keys, life.states[last], runs[n - 1][last], LastTime(life, last))
    decreases n
  {
    hide Refines, Current, NoCollision, SameStorage, ModelStepAt;
    if n == 0 {
      runs := [];
    } else {
      var before := LivesRefine(keys, lives, n - 1);
      var life := lives[n - 1];
      assert LifeIsFaithful(life, keys);
      var m: Model := map[];
      if n > 1 {
        var last, models := lives[n - 2], before[n - 2];
        assert Follows(last, life) && LifeIsFaithful(last, keys) && ModelLife(last, models);
        m := AfterRestart(models[|models| - 1], last.now, last.stamp, life.read);
        RestartRefines(last.config, life.config, keys, last.states[|last.events|], models[|models| - 1],
          LastTime(last, |last.events|), last.now, last.stamp, life.read);
      } else {
        EmptyRefines(life.config, keys, life.states[0], life.read.now);
      }
      var models := LifeRefines(keys, life, m, |life.events|);
      runs := before + [models];
      assert ModelLife(life, models);
      if n > 1 {
        assert RestartStep(lives[n - 2], life, before[n - 2], models);
        forall i | 0 <= i < n - 1 ensures RestartStep(lives[i], lives[i + 1], runs[i], runs[i + 1]) {
          if i < n - 2 {
            assert RestartStep(lives[i], lives[i + 1], before[i], before[i + 1]);
          }
        }
      }
    }
  }
}
