/** Properties of whole runs of the cache, with operations one at a time and clocks that do not go back. */
module CacheRuns {
  import opened Wrappers
  import opened CacheTypes
  import opened CacheFacts
  import opened CacheSpec
  import opened CacheRefinement

  /** A run: the operations with their clock readings and answers. */
  datatype Event = Event(op: Op, clock: Clock, out: Outcome)

  ghost predicate TimeOrdered(events: seq<Event>) {
    forall i, j :: 0 <= i < j < |events| ==> events[i].clock.now <= events[j].clock.now
  }

  ghost predicate RealStepAt(config: Config, states: seq<State>, events: seq<Event>, i: nat)
    requires i < |events| && i + 1 < |states|
  {
    Step(config, states[i], events[i].op, events[i].clock, states[i + 1], events[i].out)
  }

  ghost predicate RealRun(config: Config, states: seq<State>, events: seq<Event>) {
    |states| == |events| + 1 && forall i :: 0 <= i < |events| ==> RealStepAt(config, states, events, i)
  }

  ghost predicate ModelStepAt(config: Config, models: seq<Model>, events: seq<Event>, i: nat)
    requires i < |events| && i + 1 < |models|
  {
    ModelStep(config, models[i], events[i].op, events[i].clock.now, models[i + 1], events[i].out)
  }

  /** `models` are the states of the bounded map before and after each of the first `n` events. */
  ghost predicate ModelRun(config: Config, models: seq<Model>, events: seq<Event>, n: nat) {
    && n <= |events| && |models| == n + 1 && models[0] == map[]
    && forall i :: 0 <= i < n ==> ModelStepAt(config, models, events, i)
  }

  /** A run that starts with an empty map, uses only `keys`, and stores only what can be read back. */
  ghost predicate FaithfulRun(config: Config, keys: set<string>, states: seq<State>, events: seq<Event>) {
    && RealRun(config, states, events) && TimeOrdered(events) && states[0].cache == map[]
    && forall i :: 0 <= i < |events| ==> Within(events[i].op, keys) && Faithful(config, events[i].op)
  }

  ghost predicate RefinesAfter(
    config: Config, keys: set<string>, states: seq<State>, models: seq<Model>, events: seq<Event>, i: nat)
    requires i < |events| && i + 1 < |states| && i + 1 < |models|
  {
    Refines(config, keys, states[i + 1], models[i + 1], events[i].clock.now)
  }

  /** Every run of the cache from the empty map is a run of the bounded map with the same answers; after each
      operation the two have the same keys, and every unexpired entry has its body on disk. */
  lemma {:induction false} RunRefines(
    config: Config, keys: set<string>, states: seq<State>, events: seq<Event>, n: nat)
    returns (models: seq<Model>)
    requires NoCollision(config, keys) && FaithfulRun(config, keys, states, events) && n <= |events|
    ensures ModelRun(config, models, events, n)
    ensures forall i :: 0 <= i < n ==> RefinesAfter(config, keys, states, models, events, i)
    decreases n
  {
    hide ModelStep, Refines, Step;
    if n == 0 {
      models := [map[]];
    } else {
      var before := RunRefines(config, keys, states, events, n - 1);
      var e, m := events[n - 1], before[n - 1];
      assert RealStepAt(config, states, events, n - 1);
      if n > 1 {
        assert RefinesAfter(config, keys, states, before, events, n - 2);
        TimePasses(config, keys, states[n - 1], m, events[n - 2].clock.now, e.clock.now);
      } else {
        EmptyRefines(config, keys, states[0], e.clock.now);
      }
      var m' := StepRefines(config, keys, states[n - 1], e.op, e.clock, states[n], e.out, m);
      models := before + [m'];
      forall i | 0 <= i < n
        ensures ModelStepAt(config, models, events, i) && RefinesAfter(config, keys, states, models, events, i)
      {
        if i < n - 1 {
          assert ModelStepAt(config, before, events, i) && RefinesAfter(config, keys, states, before, events, i);
        }
      }
    }
  }

  lemma EmptyRefines(config: Config, keys: set<string>, s: State, now: int)
    requires s.cache == map[]
    ensures Refines(config, keys, s, map[], now)
  {
  }

  // ---------- What a lookup answers, in terms of the run ----------

  ghost predicate Accepted(e: Event, key: string) {
    e.op.PutOp? && e.op.key == key && e.out == Put(Stored)
  }

  /** The last accepted put of `key` before event `n`; -1 if there is none. */
  ghost function LastPut(events: seq<Event>, n: nat, key: string): (i: int)
    requires n <= |events|
    ensures -1 <= i < n
    ensures i >= 0 ==> Accepted(events[i], key)
  {
    if n == 0 then -1
    else if Accepted(events[n - 1], key) then n - 1
    else LastPut(events, n - 1, key)
  }

  /** The keys that are held before and after each event. */
  type Holdings = seq<set<string>>

  ghost function CacheKeys(states: seq<State>): (held: Holdings)
    ensures |held| == |states| && forall i :: 0 <= i < |states| ==> held[i] == states[i].cache.Keys
  {
    seq(|states|, i requires 0 <= i < |states| => states[i].cache.Keys)
  }

  ghost function ModelKeys(models: seq<Model>): (held: Holdings)
    ensures |held| == |models| && forall i :: 0 <= i < |models| ==> held[i] == models[i].Keys
  {
    seq(|models|, i requires 0 <= i < |models| => models[i].Keys)
  }

  /** The put that event `j` accepts, of another key, throws `key` out. */
  ghost predicate EvictsAt(held: Holdings, events: seq<Event>, j: nat, key: string)
    requires j < |events| && j + 1 < |held|
  {
    events[j].op.PutOp? && events[j].out == Put(Stored) && events[j].op.key != key
    && key in held[j] && key !in held[j + 1]
  }

  ghost predicate EvictedBetween(held: Holdings, events: seq<Event>, i: nat, n: nat, key: string)
    requires i <= n <= |events| && n < |held|
  {
    exists j: nat :: i < j < n && EvictsAt(held, events, j, key)
  }

  ghost function ItemPutAt(config: Config, events: seq<Event>, i: nat): Item
    requires i < |events| && events[i].op.PutOp?
  {
    ItemOf(config, events[i].op.response, events[i].op.body, events[i].clock.now)
  }

  /** The effect of one step on one key. */
  lemma StepOnKey(config: Config, models: seq<Model>, events: seq<Event>, n: nat, j: nat, key: string)
    requires ModelRun(config, models, events, n) && j < n
    ensures var e, m, m' := events[j], models[j], models[j + 1];
      && (Accepted(e, key) ==> key in m' && m'[key] == ItemPutAt(config, events, j))
      && (!Accepted(e, key) && key in m' ==> key in m && m'[key] == m[key])
      && (key in m && key !in m' ==>
            EvictsAt(ModelKeys(models), events, j, key) || (!Accepted(e, key) && ItemExpired(m[key], e.clock.now)))
  {
    assert ModelStepAt(config, models, events, j);
  }

  lemma ItemExpiryIsFinal(item: Item, now: int, later: int)
    requires ItemExpired(item, now) && now <= later
    ensures ItemExpired(item, later)
  {
    assert (now - item.createdAt) / SECOND <= (later - item.createdAt) / SECOND;
  }

  /** The item of the last accepted put is still there unless it was evicted or has expired. */
  lemma {:induction false} ModelHoldsLastPut(
    config: Config, models: seq<Model>, events: seq<Event>, total: nat, n: nat, key: string, now: int)
    requires ModelRun(config, models, events, total) && n <= total
    requires forall k :: 0 <= k < n ==> events[k].clock.now <= now
    ensures var i := LastPut(events, n, key);
      && (key in models[n] ==> i >= 0 && models[n][key] == ItemPutAt(config, events, i))
      && (key in models[n] ==> !EvictedBetween(ModelKeys(models), events, i, n, key))
      && (i >= 0 ==> !ItemExpired(ItemPutAt(config, events, i), now) ==>
            !EvictedBetween(ModelKeys(models), events, i, n, key) ==> key in models[n])
    decreases n
  {
    if n > 0 {
      ModelHoldsLastPut(config, models, events, total, n - 1, key, now);
      StepOnKey(config, models, events, total, n - 1, key);
      var i, e := LastPut(events, n, key), events[n - 1];
      if !Accepted(e, key) && i >= 0 {
        assert EvictedBetween(ModelKeys(models), events, i, n, key) <==>
          EvictedBetween(ModelKeys(models), events, i, n - 1, key) || EvictsAt(ModelKeys(models), events, n - 1, key);
        if key in models[n - 1] && ItemExpired(models[n - 1][key], e.clock.now) {
          ItemExpiryIsFinal(models[n - 1][key], e.clock.now, now);
        }
      }
    }
  }

  lemma ModelAnswersLastPut(config: Config, models: seq<Model>, events: seq<Event>, n: nat)
    requires ModelRun(config, models, events, n + 1) && TimeOrdered(events)
    requires events[n].op.GetOp?
    ensures Answers(config, ModelKeys(models), events, n)
  {
    ModelHoldsLastPut(config, models, events, n + 1, n, events[n].op.key, events[n].clock.now);
    assert ModelStepAt(config, models, events, n);
  }

  /** The answer that a lookup owes: the last accepted put of its key, if there is one that has neither expired nor
      been evicted since, and a miss otherwise. */
  ghost predicate Answers(config: Config, held: Holdings, events: seq<Event>, n: nat)
    requires n < |events| && n < |held| && events[n].op.GetOp?
  {
    var key, i := events[n].op.key, LastPut(events, n, events[n].op.key);
    events[n].out == Looked(
      if i >= 0 && !ItemExpired(ItemPutAt(config, events, i), events[n].clock.now)
        && !EvictedBetween(held, events, i, n, key)
      then HitOf(ItemPutAt(config, events, i)) else Miss)
  }

  /** The main result for single runs of the cache: a lookup hits, with headers, status and body of the last
      accepted put of its key, exactly when there is such a put, it has not expired, and no later put has thrown
      its entry out of the map. */
  lemma LookupAnswersLastPut(config: Config, keys: set<string>, states: seq<State>, events: seq<Event>, n: nat)
    requires NoCollision(config, keys) && FaithfulRun(config, keys, states, events)
    requires n < |events| && events[n].op.GetOp?
    ensures Answers(config, CacheKeys(states), events, n)
  {
    var models := RunRefines(config, keys, states, events, n + 1);
    ModelAnswersLastPut(config, models, events, n);
    forall i | 0 <= i <= n ensures ModelKeys(models)[i] == CacheKeys(states)[i] {
      if i > 0 {
        assert RefinesAfter(config, keys, states, models, events, i - 1);
      }
    }
    SameHoldingsSameEvictions(ModelKeys(models), CacheKeys(states), events, n, events[n].op.key);
  }

  lemma SameHoldingsSameEvictions(held: Holdings, held': Holdings, events: seq<Event>, n: nat, key: string)
    requires n < |events| && n < |held| && n < |held'| && forall i :: 0 <= i <= n ==> held[i] == held'[i]
    ensures forall i: nat :: i <= n ==>
      (EvictedBetween(held, events, i, n, key) <==> EvictedBetween(held', events, i, n, key))
  {
    forall j: nat | j < n ensures EvictsAt(held, events, j, key) <==> EvictsAt(held', events, j, key) {
    }
  }

  // ---------- Capacity and eviction ----------

  lemma {:induction false} ModelNeverExceedsCapacity(
    config: Config, models: seq<Model>, events: seq<Event>, total: nat, n: nat)
    requires ModelRun(config, models, events, total) && config.capacity >= 1 && n <= total
    ensures |models[n]| <= config.capacity
    decreases n
  {
    if n > 0 {
      ModelNeverExceedsCapacity(config, models, events, total, n - 1);
      assert ModelStepAt(config, models, events, n - 1);
      var e := events[n - 1];
      StepKeepsCapacity(config, models[n - 1], e.op, e.clock.now, models[n], e.out);
    }
  }

  lemma StepKeepsCapacity(config: Config, m: Model, op: Op, now: int, m': Model, out: Outcome)
    requires ModelStep(config, m, op, now, m', out) && config.capacity >= 1 && |m| <= config.capacity
    ensures |m'| <= config.capacity
  {
  }

  // ---------- Deletions ----------

  /** Whatever an operation deletes from the body files, no unexpired entry refers to it afterwards; and what
      `store` is not involved in deletes only bodies that no entry refers to any more. */
  lemma DeletionsAreSafe(
    config: Config, keys: set<string>, s: State, op: Op, clock: Clock, s': State, out: Outcome, m: Model, key: string)
    requires NoCollision(config, keys) && Within(op, keys) && Faithful(config, op)
    requires Refines(config, keys, s, m, clock.now) && Step(config, s, op, clock, s', out)
    requires key in s'.cache && s'.cache[key].record.bodyPath in s.files && s'.cache[key].record.bodyPath !in s'.files
    ensures Expired(s'.cache[key], clock.now)
    ensures op.StoreOp? || ((op.GetOp? || op.PutOp?) && config.persistent && op.withBucket)
  {
    var m' := StepRefines(config, keys, s, op, clock, s', out, m);
    assert Shows(config, s', key, m'[key], clock.now);
    if op.OrphanOp? {
      OrphanPassSparesBodies(config, s, key);
    } else if op.CleanOp? {
      CleaningDeletesOnlyOrphans(config, s, op.shard, clock);
    } else if !op.StoreOp? && !(config.persistent && op.withBucket) {
      OperationAloneDeletesOrphans(config, keys, s, op, clock, s', out, m, key);
    }
  }

  lemma OrphanPassSparesBodies(config: Config, s: State, key: string)
    requires key in s.cache && s.cache[key].record.bodyPath == BodyPath(config, key)
    requires BodyPath(config, key) in s.files
    ensures BodyPath(config, key) in OrphanPass(s).files
  {
  }

  lemma OperationAloneDeletesOrphans(
    config: Config, keys: set<string>, s: State, op: Op, clock: Clock, s': State, out: Outcome, m: Model, key: string)
    requires NoCollision(config, keys) && key in keys && Refines(config, keys, s, m, clock.now)
    requires (op.GetOp? || op.PutOp?) && op.key in keys && !(config.persistent && op.withBucket)
    requires Step(config, s, op, clock, s', out)
    requires key in s'.cache && s'.cache[key].record.bodyPath in s.files
    requires s'.cache[key].record.bodyPath == BodyPath(config, key)
    ensures BodyPath(config, key) in s'.files
  {
    if op.key != key {
      PathsDiffer(config, keys, op.key, key);
    }
    if op.GetOp? {
      if op.key in s.cache {
        assert Shows(config, s, op.key, m[op.key], clock.now);
      }
    } else if out == Put(Stored) {
      PutAloneDeletesOrphans(config, keys, s, op, clock, s', m, key);
    }
  }

  lemma PutAloneDeletesOrphans(
    config: Config, keys: set<string>, s: State, op: Op, clock: Clock, s': State, m: Model, key: string)
    requires NoCollision(config, keys) && key in keys && Refines(config, keys, s, m, clock.now)
    requires op.PutOp? && !(config.persistent && op.withBucket)
    requires PutPass(config, s, op.key, op.response, op.body, op.withBucket, clock, s', Stored)
    requires key in s'.cache && BodyPath(config, key) in s.files
    ensures BodyPath(config, key) in s'.files
  {
    hide Refines, Inserted;
    var raw := Encode(config.strategy, config.codec, op.body).value;
    var victim :| PutWithVictim(config, s, op.key, op.response, raw, victim, op.withBucket, clock, s');
    assert s' == Inserted(config, s, op.key, op.response, raw, victim, clock.now);
    InsertionKeepsBodies(config, keys, s, op.key, op.response, raw, victim, clock.now, m, key);
  }

  lemma InsertionKeepsBodies(
    config: Config, keys: set<string>, s: State, put: string, response: Response, raw: Bytes, victim: Option<string>,
    now: int, m: Model, key: string)
    requires NoCollision(config, keys) && key in keys && Refines(config, keys, s, m, now)
    requires victim.Some? ==> victim.value in s.cache
    requires key in Inserted(config, s, put, response, raw, victim, now).cache && BodyPath(config, key) in s.files
    requires victim.Some? ==> victim.value != put
    ensures BodyPath(config, key) in Inserted(config, s, put, response, raw, victim, now).files
  {
    BodyPathIsAShardBin(config, key);
    if victim.Some? {
      assert Shows(config, s, victim.value, m[victim.value], now);
      PathsDiffer(config, keys, victim.value, key);
    }
  }
}
