/** Keys that share a checksum. Every sequence of operations can be run, so the theorems about runs speak of
    something; and the hypothesis that the keys of a run do not collide is exactly what they need. */
module CacheCollision {
  import opened Wrappers
  import opened CacheTypes
  import opened CacheFacts
  import opened CacheSpec
  import CacheService
  import opened CacheRefinement
  import opened CacheRuns

  // ---------- Every operation can be run ----------

  lemma {:induction false} SomeListing(cache: Cache, now: int) returns (entries: seq<Entry>)
    ensures ListsUnexpired(entries, cache, now)
    decreases |cache|
  {
    if cache == map[] {
      entries := [];
    } else {
      var key :| key in cache;
      var rest := cache - {key};
      assert cache == rest[key := cache[key]];
      entries := SomeListing(rest, now);
      if Expired(cache[key], now) {
        CacheService.ExpiredEntrySeen(entries, rest, key, cache[key], map[], now);
      } else {
        CacheService.UnexpiredEntrySeen(entries, rest, key, cache[key], map[], now);
        entries := entries + [Entry(key, cache[key])];
      }
    }
  }

  lemma {:induction false} SomeOldest(cache: Cache) returns (victim: string)
    requires cache != map[]
    ensures IsOldest(cache, victim)
    decreases |cache|
  {
    victim :| victim in cache;
    var rest := cache - {victim};
    assert forall k :: k in cache ==> k == victim || k in rest;
    if rest != map[] {
      var other := SomeOldest(rest);
      if cache[other].createdAt < cache[victim].createdAt {
        victim := other;
      }
    }
  }

  lemma StoreRuns(s: State, clock: Clock) returns (s': State)
    ensures StorePass(s, clock, s')
  {
    var entries := SomeListing(s.cache, clock.now);
    s' := State(s.cache, WithoutExpiredBodies(s.cache, s.files, clock.now), Some(WriteEntries(entries, clock)));
  }

  lemma RemovalRuns(config: Config, s: State, key: string, withBucket: bool, clock: Clock) returns (s': State)
    ensures AfterRemoval(config, s, key, withBucket, clock, s')
  {
    s' := s;
    if config.persistent && withBucket {
      var mid := StoreRuns(s, clock);
      s' := CleanPass(config, mid, Some(ShardId(config, key)), clock);
    }
  }

  lemma GetRuns(config: Config, s: State, key: string, withBucket: bool, clock: Clock)
    returns (s': State, result: Lookup)
    ensures GetPass(config, s, key, withBucket, clock, s', result)
  {
    hide AfterRemoval, Decode, Expired;
    result := Miss;
    var path := BodyPath(config, key);
    if key !in s.cache {
      s' := s;
      if path in s.files {
        s' := RemovalRuns(config, s.(files := s.files - {path}), key, withBucket, clock);
      }
    } else {
      var meta := s.cache[key];
      path := meta.record.bodyPath;
      var removed := s.(cache := s.cache - {key}, files := s.files - {path});
      if Expired(meta, clock.now) || path !in s.files || Decode(config.codec, s.files[path]).None? {
        s' := RemovalRuns(config, removed, key, withBucket, clock);
      } else {
        s' := s;
        var body := Decode(config.codec, s.files[path]).value;
        result := Hit(meta.record.headers, meta.record.status, body, meta.record.originalEncoding);
      }
    }
  }

  lemma PutRuns(config: Config, s: State, key: string, response: Response, body: Bytes, withBucket: bool, clock: Clock)
    returns (s': State, outcome: PutOutcome)
    ensures PutPass(config, s, key, response, body, withBucket, clock, s', outcome)
  {
    outcome := PutDecision(config, response, body);
    s' := s;
    if outcome == Stored {
      var raw := Encode(config.strategy, config.codec, body).value;
      var victim: Option<string> := None;
      if MustEvict(config, s.cache, key) {
        var v := SomeOldest(s.cache);
        victim := Some(v);
      }
      var mid := Inserted(config, s, key, response, raw, victim, clock.now);
      if victim.Some? {
        mid := RemovalRuns(config, mid, key, withBucket, clock);
      }
      assert Inserts(config, s, key, response, raw, victim, withBucket, clock, mid);
      s' := mid;
      if config.persistent && withBucket {
        s' := StoreRuns(mid, clock);
      }
      assert PutWithVictim(config, s, key, response, raw, victim, withBucket, clock, s');
    }
  }

  lemma OpRuns(config: Config, s: State, op: Op, clock: Clock) returns (s': State, out: Outcome)
    ensures Step(config, s, op, clock, s', out)
  {
    hide GetPass, PutPass, StorePass;
    out := Done;
    match op
    case GetOp(key, withBucket) =>
      var result;
      s', result := GetRuns(config, s, key, withBucket, clock);
      out := Looked(result);
    case PutOp(key, response, body, withBucket) =>
      var outcome;
      s', outcome := PutRuns(config, s, key, response, body, withBucket, clock);
      out := Put(outcome);
    case StoreOp => s' := StoreRuns(s, clock);
    case CleanOp(shard) => s' := CleanPass(config, s, shard, clock);
    case OrphanOp => s' := OrphanPass(s);
  }

  datatype Call = Call(op: Op, clock: Clock)

  ghost predicate Performs(events: seq<Event>, calls: seq<Call>) {
    && |events| == |calls|
    && forall i :: 0 <= i < |calls| ==> events[i].op == calls[i].op && events[i].clock == calls[i].clock
  }

  /** Any operations at any times, from any state, are the operations of some run. */
  lemma {:induction false} AnyCallsRun(config: Config, s: State, calls: seq<Call>)
    returns (states: seq<State>, events: seq<Event>)
    ensures RealRun(config, states, events) && states[0] == s && Performs(events, calls)
    decreases |calls|
  {
    hide Step;
    if calls == [] {
      states, events := [s], [];
    } else {
      var n := |calls| - 1;
      var before, seen := AnyCallsRun(config, s, calls[..n]);
      var s', out := OpRuns(config, before[n], calls[n].op, calls[n].clock);
      states, events := before + [s'], seen + [Event(calls[n].op, calls[n].clock, out)];
      forall i | 0 <= i < |events| ensures RealStepAt(config, states, events, i) {
        if i < n {
          assert RealStepAt(config, before, seen, i);
        }
      }
    }
  }

  // ---------- Some keys collide, and then lookups go wrong ----------

  /** A function from `n + 1` numbers to `n` takes some value twice. */
  lemma {:induction false} SomeValueTwice(f: nat -> nat, n: nat) returns (i: nat, j: nat)
    requires forall k: nat :: k <= n ==> f(k) < n
    ensures i < j <= n && f(i) == f(j)
    decreases n
  {
    if k: nat :| k < n && f(k) == f(n) {
      i, j := k, n;
    } else {
      var g: nat -> nat := k => if f(k) == n - 1 then f(n) else f(k);
      i, j := SomeValueTwice(g, n - 1);
    }
  }

  function Repeated(k: nat): (s: string)
    ensures |s| == k
  {
    seq(k, _ => 'a')
  }

  function CrcOfRepeated(config: Config, k: nat): (c: nat)
    ensures c < 0x1_0000_0000
  {
    config.crc(Repeated(k))
  }

  /** Whatever the checksum, some two keys share it, and so their body file. */
  lemma SomeKeysCollide(config: Config) returns (a: string, b: string)
    ensures a != b && config.crc(a) == config.crc(b) && BodyPath(config, a) == BodyPath(config, b)
  {
    var i, j := SomeValueTwice((k: nat) => CrcOfRepeated(config, k), 0x1_0000_0000);
    a, b := Repeated(i), Repeated(j);
    assert |a| != |b|;
  }

  /** A put into a map with room in which nothing has expired. */
  lemma PutIntoRoom(
    config: Config, s: State, key: string, response: Response, body: Bytes, withBucket: bool, clock: Clock, s': State,
    outcome: PutOutcome)
    requires PutPass(config, s, key, response, body, withBucket, clock, s', outcome)
    requires PutDecision(config, response, body) == Stored && !MustEvict(config, s.cache, key)
    requires forall k :: k in s.cache ==> !Expired(s.cache[k], clock.now)
    ensures outcome == Stored
    ensures var raw := Encode(config.strategy, config.codec, body).value;
      var path := BodyPath(config, key);
      && s'.cache == s.cache[key := NewMetadata(config, key, response, raw, clock.now)]
      && s'.files == (s.files - {TempOf(path)})[path := raw]
  {
    var raw := Encode(config.strategy, config.codec, body).value;
    var victim :| PutWithVictim(config, s, key, response, raw, victim, withBucket, clock, s');
    var mid :| Inserts(config, s, key, response, raw, victim, withBucket, clock, mid)
      && if config.persistent && withBucket then StorePass(mid, clock, s') else s' == mid;
    assert mid == Inserted(config, s, key, response, raw, None, clock.now);
    if config.persistent && withBucket {
      assert forall p :: p in mid.files ==> !HoldsExpiredBody(mid.cache, p, clock.now);
      assert s'.files == mid.files;
    }
  }

  function TwoPutsAndALookup(
    a: string, b: string, first: Response, x: Bytes, second: Response, y: Bytes, withBucket: bool, clock: Clock)
    : seq<Call>
  {
    [Call(PutOp(a, first, x, withBucket), clock), Call(PutOp(b, second, y, withBucket), clock),
     Call(GetOp(a, withBucket), clock)]
  }

  ghost predicate StoredAndRead(config: Config, response: Response, body: Bytes) {
    && PutDecision(config, response, body) == Stored
    && Decode(config.codec, Encode(config.strategy, config.codec, body).value) == Some(body)
  }

  /** Two puts, then a lookup of the first key: it gets its own headers, and its own body unless the second key has
      the same checksum; then it gets the second body. */
  lemma TwoPutsThenALookup(
    config: Config, a: string, b: string, first: Response, x: Bytes, second: Response, y: Bytes, withBucket: bool,
    clock: Clock)
    returns (states: seq<State>, events: seq<Event>)
    requires config.capacity >= 2 && a != b && StoredAndRead(config, first, x) && StoredAndRead(config, second, y)
    ensures RealRun(config, states, events) && states[0] == State(map[], map[], None)
    ensures Performs(events, TwoPutsAndALookup(a, b, first, x, second, y, withBucket, clock))
    ensures events[0].out == Put(Stored) && events[1].out == Put(Stored) && states[2].cache.Keys == {a, b}
    ensures events[2].out == Looked(
      Hit(first.headers, first.status, if config.crc(a) == config.crc(b) then y else x,
        HeaderValue(first.headers, "content-encoding")))
  {
    hide PutPass, GetPass, PutDecision, Encode, Decode, HeaderValue;
    states, events := AnyCallsRun(
      config, State(map[], map[], None), TwoPutsAndALookup(a, b, first, x, second, y, withBucket, clock));
    assert RealStepAt(config, states, events, 0);
    PutIntoRoom(config, states[0], a, first, x, withBucket, clock, states[1], events[0].out.outcome);
    assert RealStepAt(config, states, events, 1);
    assert states[1].cache.Keys == {a} && |states[1].cache| == |states[1].cache.Keys|;
    PutIntoRoom(config, states[1], b, second, y, withBucket, clock, states[2], events[1].out.outcome);
    assert RealStepAt(config, states, events, 2);
    SamePathIffSameCrc(config, a, b);
    BodyPathIsAShardBin(config, a);
    FreshEntryIsServed(config, states[2], a, withBucket, clock, states[3], events[2].out.result,
      if config.crc(a) == config.crc(b) then y else x);
  }

  lemma FreshEntryIsServed(
    config: Config, s: State, key: string, withBucket: bool, clock: Clock, s': State, result: Lookup, body: Bytes)
    requires GetPass(config, s, key, withBucket, clock, s', result)
    requires key in s.cache && !Expired(s.cache[key], clock.now) && s.cache[key].record.bodyPath in s.files
    requires Decode(config.codec, s.files[s.cache[key].record.bodyPath]) == Some(body)
    ensures var record := s.cache[key].record;
      result == Hit(record.headers, record.status, body, record.originalEncoding)
  {
  }

  ghost predicate LookupsAnswer(config: Config, states: seq<State>, events: seq<Event>)
    requires |states| == |events| + 1
  {
    forall n :: 0 <= n < |events| && events[n].op.GetOp? ==> Answers(config, CacheKeys(states), events, n)
  }

  /** In every run over `keys`, every lookup answers with the last accepted put of its key. */
  ghost predicate LookupsAreRight(config: Config, keys: set<string>) {
    forall states, events :: FaithfulRun(config, keys, states, events) ==> LookupsAnswer(config, states, events)
  }

  /** That no two keys of the runs collide is exactly what the lookups need, if the cache has room for two entries
      and there are two different bodies that it stores. */
  lemma LookupsAreRightIffNoCollision(config: Config, keys: set<string>, response: Response, x: Bytes, y: Bytes)
    requires config.capacity >= 2 && x != y
    requires PutDecision(config, response, x) == Stored && PutDecision(config, response, y) == Stored
    requires Faithful(config, PutOp("", response, x, true)) && Faithful(config, PutOp("", response, y, true))
    ensures LookupsAreRight(config, keys) <==> NoCollision(config, keys)
  {
    if NoCollision(config, keys) {
      forall states: seq<State>, events: seq<Event> | FaithfulRun(config, keys, states, events)
        ensures LookupsAnswer(config, states, events) {
        forall n | 0 <= n < |events| && events[n].op.GetOp? ensures Answers(config, CacheKeys(states), events, n) {
          LookupAnswersLastPut(config, keys, states, events, n);
        }
      }
    } else {
      var a, b :| a in keys && b in keys && config.crc(a) == config.crc(b) && a != b;
      CollidingKeysAnswerWrong(config, keys, a, b, response, x, y);
    }
  }

  lemma CollidingKeysAnswerWrong(
    config: Config, keys: set<string>, a: string, b: string, response: Response, x: Bytes, y: Bytes)
    requires config.capacity >= 2 && x != y && a in keys && b in keys && a != b && config.crc(a) == config.crc(b)
    requires PutDecision(config, response, x) == Stored && PutDecision(config, response, y) == Stored
    requires Faithful(config, PutOp("", response, x, true)) && Faithful(config, PutOp("", response, y, true))
    ensures !LookupsAreRight(config, keys)
  {
    var clock := Clock(0, 0);
    BodyRoundTrips(config, y);
    BodyRoundTrips(config, x);
    var states, events := TwoPutsThenALookup(config, a, b, response, x, response, y, true, clock);
    assert forall i :: 0 <= i < 3 ==> events[i].clock == clock;
    assert FaithfulRun(config, keys, states, events);
    assert LastPut(events, 1, a) == 0 && LastPut(events, 2, a) == 0;
    assert !EvictsAt(CacheKeys(states), events, 1, a);
    assert !Answers(config, CacheKeys(states), events, 2);
    assert !LookupsAnswer(config, states, events);
  }

  // ---------- A run that meets every hypothesis ----------

  /** A persistent cache for two entries that stores bodies raw; its checksum tells "b" from everything else. */
  const SAMPLE: Config := Config(
    2, Auto, Codec((b: Bytes) => None, (b: Bytes) => None, (b: Bytes) => None, (b: Bytes) => None), 60, None, true, 16,
    (key: string) => if key == "b" then 1 else 0)

  const PAGE: Response := Response([], 200)

  lemma SampleRun() returns (states: seq<State>, events: seq<Event>)
    ensures NoCollision(SAMPLE, {"a", "b"}) && FaithfulRun(SAMPLE, {"a", "b"}, states, events)
    ensures Performs(events, TwoPutsAndALookup("a", "b", PAGE, [1], PAGE, [2], true, Clock(0, 0)))
    ensures events[2].out == Looked(Hit([], 200, [1], None))
  {
    states, events := TwoPutsThenALookup(SAMPLE, "a", "b", PAGE, [1], PAGE, [2], true, Clock(0, 0));
    assert forall i :: 0 <= i < 3 ==> events[i].clock == Clock(0, 0);
  }
}
