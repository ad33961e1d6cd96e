/** Whole operations run one at a time: the cache behaves like a bounded map with a time to live.
    Hypotheses: no two of the keys in use share a CRC, and every stored body is read back as it was (`Faithful`). */
module CacheRefinement {
  import opened Wrappers
  import opened CacheTypes
  import opened CacheFacts
  import opened CacheSpec

  // ---------- The simple machine ----------

  datatype Item = Item(
    headers: Headers, status: nat, body: Bytes, originalEncoding: Option<string>, ttl: nat, createdAt: int)

  type Model = map<string, Item>

  predicate ItemExpired(item: Item, now: int) {
    ElapsedSeconds(item.createdAt, now) > item.ttl
  }

  function ItemOf(config: Config, response: Response, body: Bytes, now: int): Item {
    Item(response.headers, response.status, body, HeaderValue(response.headers, "content-encoding"), config.ttl, now)
  }

  function HitOf(item: Item): Lookup {
    Hit(item.headers, item.status, item.body, item.originalEncoding)
  }

  datatype Op =
    | GetOp(key: string, withBucket: bool)
    | PutOp(key: string, response: Response, body: Bytes, withBucket: bool)
    | StoreOp
    | CleanOp(shard: Option<nat>)
    | OrphanOp

  datatype Outcome = Looked(result: Lookup) | Put(outcome: PutOutcome) | Done

  ghost predicate ModelStep(config: Config, m: Model, op: Op, now: int, m': Model, out: Outcome) {
    match op
    case GetOp(key, _) =>
      if key in m && !ItemExpired(m[key], now) then out == Looked(HitOf(m[key])) && m' == m
      else out == Looked(Miss) && m' == m - {key}
    case PutOp(key, response, body, _) =>
      && out == Put(PutDecision(config, response, body))
      && if out != Put(Stored) then m' == m
         else
           var item := ItemOf(config, response, body, now);
           if |m| >= config.capacity && key !in m && m != map[] then
             exists victim :: OldestItem(m, victim) && m' == (m - {victim})[key := item]
           else m' == m[key := item]
    case _ => out == Done && m' == m
  }

  ghost predicate OldestItem(m: Model, victim: string) {
    victim in m && forall k :: k in m ==> m[victim].createdAt <= m[k].createdAt
  }

  // ---------- The real machine ----------

  ghost predicate Step(config: Config, s: State, op: Op, clock: Clock, s': State, out: Outcome) {
    match op
    case GetOp(key, withBucket) => out.Looked? && GetPass(config, s, key, withBucket, clock, s', out.result)
    case PutOp(key, response, body, withBucket) =>
      out.Put? && PutPass(config, s, key, response, body, withBucket, clock, s', out.outcome)
    case StoreOp => out == Done && StorePass(s, clock, s')
    case CleanOp(shard) => out == Done && s' == CleanPass(config, s, shard, clock)
    case OrphanOp => out == Done && s' == OrphanPass(s)
  }

  /** A store of this body can be read back. */
  ghost predicate Faithful(config: Config, op: Op) {
    op.PutOp? ==>
      if config.strategy == All then GzipRoundTrips(config.codec) else Unsniffed(config.codec, op.body)
  }

  predicate Within(op: Op, keys: set<string>) {
    op.GetOp? || op.PutOp? ==> op.key in keys
  }

  // ---------- The abstraction ----------

  ghost predicate Shows(config: Config, s: State, key: string, item: Item, now: int)
    requires key in s.cache
  {
    var meta := s.cache[key];
    && meta.createdAt == item.createdAt <= now && meta.record.ttl == item.ttl
    && meta.record.headers == item.headers && meta.record.status == item.status
    && meta.record.originalEncoding == item.originalEncoding
    && meta.record.bodyPath == BodyPath(config, key)
    && (!Expired(meta, now) ==> meta.record.bodyPath in s.files)
    && (meta.record.bodyPath in s.files ==> Decode(config.codec, s.files[meta.record.bodyPath]) == Some(item.body))
  }

  /** The map and the model have the same keys, all of them among `keys`; what there is of an entry's body file is
      the item's body, and every entry that is unexpired at `now` has its body file. */
  ghost predicate Refines(config: Config, keys: set<string>, s: State, m: Model, now: int) {
    m.Keys == s.cache.Keys <= keys && forall k :: k in m ==> Shows(config, s, k, m[k], now)
  }

  lemma PathsDiffer(config: Config, keys: set<string>, a: string, b: string)
    requires NoCollision(config, keys) && a in keys && b in keys && a != b
    ensures BodyPath(config, a) != BodyPath(config, b)
  {
    SamePathIffSameCrc(config, a, b);
  }

  lemma TimePasses(config: Config, keys: set<string>, s: State, m: Model, now: int, later: int)
    requires Refines(config, keys, s, m, now) && now <= later
    ensures Refines(config, keys, s, m, later)
  {
  }

  /** Files may go as long as the bodies of unexpired entries stay. */
  lemma FilesMayGo(config: Config, keys: set<string>, s: State, s': State, m: Model, now: int)
    requires Refines(config, keys, s, m, now) && s'.cache == s.cache
    requires forall p :: p in s'.files ==> p in s.files && s'.files[p] == s.files[p]
    requires forall k :: k in s.cache && !Expired(s.cache[k], now) && s.cache[k].record.bodyPath in s.files ==>
      s.cache[k].record.bodyPath in s'.files
    ensures Refines(config, keys, s', m, now)
  {
  }

  lemma StoreRefines(config: Config, keys: set<string>, s: State, clock: Clock, s': State, m: Model)
    requires NoCollision(config, keys) && Refines(config, keys, s, m, clock.now) && StorePass(s, clock, s')
    ensures Refines(config, keys, s', m, clock.now)
  {
    forall k | k in s.cache && !Expired(s.cache[k], clock.now)
      ensures !HoldsExpiredBody(s.cache, s.cache[k].record.bodyPath, clock.now)
    {
      forall k' | k' in s.cache && Expired(s.cache[k'], clock.now)
        ensures s.cache[k'].record.bodyPath != s.cache[k].record.bodyPath
      {
        assert Shows(config, s, k, m[k], clock.now) && Shows(config, s, k', m[k'], clock.now);
        PathsDiffer(config, keys, k, k');
      }
    }
    FilesMayGo(config, keys, s, s', m, clock.now);
  }

  /** The entry loop of the cleaners never touches a referenced body and never changes a file. */
  lemma {:induction false} CleanEntriesSparesValid(
    config: Config, shard: Option<nat>, valid: set<FilePath>, entries: seq<Entry>, files: Files, now: int)
    ensures var left := CleanEntries(config, shard, valid, entries, files, now).1;
      && (forall p :: p in left ==> p in files && left[p] == files[p])
      && (forall p :: p in files && p in valid ==> p in left)
    decreases |entries|
  {
    if entries != [] {
      CleanEntriesSparesValid(config, shard, valid, entries[..|entries| - 1], files, now);
    }
  }

  /** Neither cleaner deletes a body that some entry refers to. */
  lemma CleaningDeletesOnlyOrphans(config: Config, s: State, shard: Option<nat>, clock: Clock)
    ensures var s' := CleanPass(config, s, shard, clock);
      && s'.cache == s.cache
      && (forall p :: p in s'.files ==> p in s.files && s'.files[p] == s.files[p])
      && (forall p :: p in s.files && p in Paths(s.cache) ==> p in s'.files)
  {
    if s.snapshot.Some? && Readable(s.snapshot.value, clock) {
      CleanEntriesSparesValid(
        config, shard, Paths(s.cache), ReadEntries(s.snapshot.value, clock), s.files, clock.now);
    }
  }

  lemma CleanRefines(config: Config, keys: set<string>, s: State, shard: Option<nat>, clock: Clock, m: Model)
    requires Refines(config, keys, s, m, clock.now)
    ensures Refines(config, keys, CleanPass(config, s, shard, clock), m, clock.now)
  {
    CleaningDeletesOnlyOrphans(config, s, shard, clock);
    FilesMayGo(config, keys, s, CleanPass(config, s, shard, clock), m, clock.now);
  }

  lemma OrphanRefines(config: Config, keys: set<string>, s: State, m: Model, now: int)
    requires Refines(config, keys, s, m, now)
    ensures Refines(config, keys, OrphanPass(s), m, now)
  {
  }

  lemma AfterRemovalRefines(
    config: Config, keys: set<string>, s: State, key: string, withBucket: bool, clock: Clock, s': State, m: Model)
    requires NoCollision(config, keys) && Refines(config, keys, s, m, clock.now)
    requires AfterRemoval(config, s, key, withBucket, clock, s')
    ensures Refines(config, keys, s', m, clock.now)
  {
    if config.persistent && withBucket {
      var shard := Some(ShardId(config, key));
      var mid :| StorePass(s, clock, mid) && s' == CleanPass(config, mid, shard, clock);
      StoreRefines(config, keys, s, clock, mid, m);
      CleanRefines(config, keys, mid, shard, clock, m);
    }
  }

  /** Removing an entry together with its body. */
  lemma RemovalRefines(config: Config, keys: set<string>, s: State, m: Model, key: string, now: int)
    requires NoCollision(config, keys) && key in keys && Refines(config, keys, s, m, now)
    ensures var s' := s.(cache := s.cache - {key}, files := s.files - {BodyPath(config, key)});
      Refines(config, keys, s', m - {key}, now)
  {
    var s' := s.(cache := s.cache - {key}, files := s.files - {BodyPath(config, key)});
    forall k | k in m && k != key ensures Shows(config, s', k, m[k], now) {
      assert Shows(config, s, k, m[k], now);
      PathsDiffer(config, keys, k, key);
    }
  }

  lemma GetRefines(
    config: Config, keys: set<string>, s: State, key: string, withBucket: bool, clock: Clock, s': State, result: Lookup,
    m: Model)
    returns (m': Model)
    requires NoCollision(config, keys) && key in keys && Refines(config, keys, s, m, clock.now)
    requires GetPass(config, s, key, withBucket, clock, s', result)
    ensures ModelStep(config, m, GetOp(key, withBucket), clock.now, m', Looked(result))
    ensures Refines(config, keys, s', m', clock.now)
  {
    if key in m {
      assert Shows(config, s, key, m[key], clock.now);
    }
    if key in m && !ItemExpired(m[key], clock.now) {
      m' := m;
    } else {
      m' := m - {key};
      MissRefines(config, keys, s, key, withBucket, clock, s', m);
    }
  }

  /** A lookup that does not find an unexpired entry. */
  lemma MissRefines(
    config: Config, keys: set<string>, s: State, key: string, withBucket: bool, clock: Clock, s': State, m: Model)
    requires NoCollision(config, keys) && key in keys && Refines(config, keys, s, m, clock.now)
    requires key in s.cache ==> Expired(s.cache[key], clock.now)
    requires GetPass(config, s, key, withBucket, clock, s', Miss)
    ensures Refines(config, keys, s', m - {key}, clock.now)
  {
    RemovalRefines(config, keys, s, m, key, clock.now);
    if key in s.cache {
      assert Shows(config, s, key, m[key], clock.now);
      var removed := s.(cache := s.cache - {key}, files := s.files - {BodyPath(config, key)});
      AfterRemovalRefines(config, keys, removed, key, withBucket, clock, s', m - {key});
    } else {
      assert m - {key} == m && s.cache - {key} == s.cache;
      if BodyPath(config, key) in s.files {
        var removed := s.(files := s.files - {BodyPath(config, key)});
        AfterRemovalRefines(config, keys, removed, key, withBucket, clock, s', m);
      }
    }
  }

  /** An insertion into a map with room, or over the key's own entry. */
  lemma InsertionRefines(
    config: Config, keys: set<string>, s: State, key: string, response: Response, body: Bytes, raw: Bytes, now: int,
    m: Model)
    requires NoCollision(config, keys) && key in keys && Refines(config, keys, s, m, now)
    requires Decode(config.codec, raw) == Some(body)
    ensures Refines(config, keys, Inserted(config, s, key, response, raw, None, now),
      m[key := ItemOf(config, response, body, now)], now)
  {
    var s', m' := Inserted(config, s, key, response, raw, None, now), m[key := ItemOf(config, response, body, now)];
    BodyPathIsAShardBin(config, key);
    forall k | k in m' ensures Shows(config, s', k, m'[k], now) {
      if k != key {
        assert Shows(config, s, k, m[k], now);
        PathsDiffer(config, keys, k, key);
        BodyPathIsAShardBin(config, k);
      }
    }
  }

  lemma InsertedRefines(
    config: Config, keys: set<string>, s: State, key: string, response: Response, body: Bytes, raw: Bytes,
    victim: Option<string>, now: int, m: Model)
    requires NoCollision(config, keys) && key in keys && Refines(config, keys, s, m, now)
    requires Decode(config.codec, raw) == Some(body)
    requires victim.Some? ==> victim.value in s.cache && victim.value != key
    ensures var kept := if victim.Some? then m - {victim.value} else m;
      Refines(config, keys, Inserted(config, s, key, response, raw, victim, now),
        kept[key := ItemOf(config, response, body, now)], now)
  {
    if victim.None? {
      InsertionRefines(config, keys, s, key, response, body, raw, now, m);
    } else {
      var v := victim.value;
      var path := BodyPath(config, v);
      assert Shows(config, s, v, m[v], now);
      var without := s.(cache := s.cache - {v}, files := s.files - {path});
      RemovalRefines(config, keys, s, m, v, now);
      InsertionRefines(config, keys, without, key, response, body, raw, now, m - {v});
      EvictionIsRemovalFirst(config, keys, s, key, response, raw, v, now);
    }
  }

  /** It makes no difference that the evicted body goes last. */
  lemma EvictionIsRemovalFirst(
    config: Config, keys: set<string>, s: State, key: string, response: Response, raw: Bytes, victim: string, now: int)
    requires NoCollision(config, keys) && key in keys && victim in keys && victim in s.cache && victim != key
    requires s.cache[victim].record.bodyPath == BodyPath(config, victim)
    ensures Inserted(config, s, key, response, raw, Some(victim), now) ==
      Inserted(config, s.(cache := s.cache - {victim}, files := s.files - {BodyPath(config, victim)}),
        key, response, raw, None, now)
  {
    PathsDiffer(config, keys, key, victim);
    var path, evicted := BodyPath(config, key), BodyPath(config, victim);
    assert (s.files - {TempOf(path)})[path := raw] - {evicted} == (s.files - {evicted} - {TempOf(path)})[path := raw];
  }

  lemma PutRefines(
    config: Config, keys: set<string>, s: State, op: Op, clock: Clock, s': State, outcome: PutOutcome, m: Model)
    returns (m': Model)
    requires op.PutOp? && NoCollision(config, keys) && op.key in keys && Faithful(config, op)
    requires Refines(config, keys, s, m, clock.now)
    requires PutPass(config, s, op.key, op.response, op.body, op.withBucket, clock, s', outcome)
    ensures ModelStep(config, m, op, clock.now, m', Put(outcome))
    ensures Refines(config, keys, s', m', clock.now)
  {
    if outcome != Stored {
      m' := m;
    } else {
      var raw := Encode(config.strategy, config.codec, op.body).value;
      var victim :|
        PutWithVictim(config, s, op.key, op.response, raw, victim, op.withBucket, clock, s');
      BodyRoundTrips(config, op.body);
      SameSize(s.cache, m);
      var item := ItemOf(config, op.response, op.body, clock.now);
      m' := (if victim.Some? then m - {victim.value} else m)[op.key := item];
      if victim.Some? {
        OldestEntryIsOldestItem(config, keys, s, m, victim.value, clock.now);
      }
      StoredRefines(config, keys, s, op, raw, victim, clock, s', m, m');
    }
  }

  lemma OldestEntryIsOldestItem(config: Config, keys: set<string>, s: State, m: Model, victim: string, now: int)
    requires Refines(config, keys, s, m, now) && IsOldest(s.cache, victim)
    ensures OldestItem(m, victim)
  {
    forall k | k in m ensures m[victim].createdAt <= m[k].createdAt {
      assert Shows(config, s, k, m[k], now) && Shows(config, s, victim, m[victim], now);
    }
  }

  lemma InsertsRefines(
    config: Config, keys: set<string>, s: State, op: Op, raw: Bytes, victim: Option<string>, clock: Clock, mid: State,
    m: Model)
    requires op.PutOp? && NoCollision(config, keys) && op.key in keys && Refines(config, keys, s, m, clock.now)
    requires Decode(config.codec, raw) == Some(op.body)
    requires victim.Some? ==> victim.value in s.cache && victim.value != op.key
    requires Inserts(config, s, op.key, op.response, raw, victim, op.withBucket, clock, mid)
    ensures Refines(config, keys, mid,
      (if victim.Some? then m - {victim.value} else m)[op.key := ItemOf(config, op.response, op.body, clock.now)],
      clock.now)
  {
    hide Refines, AfterRemoval, Inserted;
    InsertedRefines(config, keys, s, op.key, op.response, op.body, raw, victim, clock.now, m);
    if victim.Some? {
      var inserted := Inserted(config, s, op.key, op.response, raw, victim, clock.now);
      var m' := (m - {victim.value})[op.key := ItemOf(config, op.response, op.body, clock.now)];
      AfterRemovalRefines(config, keys, inserted, op.key, op.withBucket, clock, mid, m');
    }
  }

  lemma StoredRefines(
    config: Config, keys: set<string>, s: State, op: Op, raw: Bytes, victim: Option<string>, clock: Clock, s': State,
    m: Model, m': Model)
    requires op.PutOp? && NoCollision(config, keys) && op.key in keys && Refines(config, keys, s, m, clock.now)
    requires Decode(config.codec, raw) == Some(op.body)
    requires PutWithVictim(config, s, op.key, op.response, raw, victim, op.withBucket, clock, s')
    requires m' == (if victim.Some? then m - {victim.value} else m)[
      op.key := ItemOf(config, op.response, op.body, clock.now)]
    ensures Refines(config, keys, s', m', clock.now)
  {
    hide Refines, StorePass, Inserts;
    var mid :| Inserts(config, s, op.key, op.response, raw, victim, op.withBucket, clock, mid)
      && if config.persistent && op.withBucket then StorePass(mid, clock, s') else s' == mid;
    InsertsRefines(config, keys, s, op, raw, victim, clock, mid, m);
    if config.persistent && op.withBucket {
      StoreRefines(config, keys, mid, clock, s', m');
    }
  }

  lemma SameSize(cache: Cache, m: Model)
    requires cache.Keys == m.Keys
    ensures |cache| == |m| && (cache == map[] <==> m == map[])
  {
  }

  /** Every operation of the cache is the same operation of the bounded map, with the same answer. */
  lemma StepRefines(
    config: Config, keys: set<string>, s: State, op: Op, clock: Clock, s': State, out: Outcome, m: Model)
    returns (m': Model)
    requires NoCollision(config, keys) && Within(op, keys) && Faithful(config, op)
    requires Refines(config, keys, s, m, clock.now)
    requires Step(config, s, op, clock, s', out)
    ensures ModelStep(config, m, op, clock.now, m', out)
    ensures Refines(config, keys, s', m', clock.now)
  {
    match op
    case GetOp(key, withBucket) => m' := GetRefines(config, keys, s, key, withBucket, clock, s', out.result, m);
    case PutOp(_, _, _, _) => m' := PutRefines(config, keys, s, op, clock, s', out.outcome, m);
    case StoreOp => m' := m; StoreRefines(config, keys, s, clock, s', m);
    case CleanOp(shard) => m' := m; CleanRefines(config, keys, s, shard, clock, m);
    case OrphanOp => m' := m; OrphanRefines(config, keys, s, m, clock.now);
  }
}
