/** What a lookup serves after a put of any body, readable or not. */
module CacheBodies {
  import opened Wrappers
  import opened CacheTypes
  import opened CacheFacts
  import opened CacheSpec
  import opened CacheRefinement

  /** The map refers to each key's own body file, and no two of its keys, or `key`, collide. */
  ghost predicate OwnBodies(config: Config, s: State, key: string) {
    && NoCollision(config, s.cache.Keys + {key})
    && forall k :: k in s.cache ==> s.cache[k].record.bodyPath == BodyPath(config, k)
  }

  /** The entry of `key` is `meta`, unexpired, and its body file holds `raw`. */
  ghost predicate Fresh(config: Config, s: State, key: string, meta: Metadata, raw: Bytes, now: int) {
    && OwnBodies(config, s, key) && key in s.cache && s.cache[key] == meta && !Expired(meta, now)
    && BodyPath(config, key) in s.files && s.files[BodyPath(config, key)] == raw
  }

  lemma StoreKeepsFresh(config: Config, s: State, clock: Clock, s': State, key: string, meta: Metadata, raw: Bytes)
    requires Fresh(config, s, key, meta, raw, clock.now) && StorePass(s, clock, s')
    ensures Fresh(config, s', key, meta, raw, clock.now)
  {
    forall k | k in s.cache && Expired(s.cache[k], clock.now) ensures BodyPath(config, k) != BodyPath(config, key) {
      SamePathIffSameCrc(config, k, key);
    }
  }

  lemma RemovalKeepsFresh(
    config: Config, s: State, put: string, withBucket: bool, clock: Clock, s': State, key: string, meta: Metadata,
    raw: Bytes)
    requires Fresh(config, s, key, meta, raw, clock.now) && AfterRemoval(config, s, put, withBucket, clock, s')
    ensures Fresh(config, s', key, meta, raw, clock.now)
  {
    if config.persistent && withBucket {
      var shard := Some(ShardId(config, put));
      var mid :| StorePass(s, clock, mid) && s' == CleanPass(config, mid, shard, clock);
      StoreKeepsFresh(config, s, clock, mid, key, meta, raw);
      CleaningDeletesOnlyOrphans(config, mid, shard, clock);
      assert BodyPath(config, key) in Paths(mid.cache);
    }
  }

  lemma InsertedIsFresh(
    config: Config, s: State, key: string, response: Response, raw: Bytes, victim: Option<string>, now: int)
    requires OwnBodies(config, s, key) && (victim.Some? ==> victim.value in s.cache && victim.value != key)
    ensures Fresh(config, Inserted(config, s, key, response, raw, victim, now), key,
      NewMetadata(config, key, response, raw, now), raw, now)
  {
    if victim.Some? {
      SamePathIffSameCrc(config, victim.value, key);
    }
    assert NoCollision(config, Inserted(config, s, key, response, raw, victim, now).cache.Keys + {key});
  }

  lemma PutIsFresh(
    config: Config, s: State, key: string, response: Response, body: Bytes, withBucket: bool, clock: Clock, s': State)
    requires OwnBodies(config, s, key) && PutPass(config, s, key, response, body, withBucket, clock, s', Stored)
    ensures var raw := Encode(config.strategy, config.codec, body).value;
      Fresh(config, s', key, NewMetadata(config, key, response, raw, clock.now), raw, clock.now)
  {
    var raw := Encode(config.strategy, config.codec, body).value;
    var meta := NewMetadata(config, key, response, raw, clock.now);
    hide Fresh, Inserted, NewMetadata, OwnBodies, AfterRemoval, StorePass;
    var victim :| PutWithVictim(config, s, key, response, raw, victim, withBucket, clock, s');
    var mid :| Inserts(config, s, key, response, raw, victim, withBucket, clock, mid)
      && if config.persistent && withBucket then StorePass(mid, clock, s') else s' == mid;
    InsertedIsFresh(config, s, key, response, raw, victim, clock.now);
    if victim.Some? {
      var inserted := Inserted(config, s, key, response, raw, victim, clock.now);
      RemovalKeepsFresh(config, inserted, key, withBucket, clock, mid, key, meta, raw);
    }
    if config.persistent && withBucket {
      StoreKeepsFresh(config, mid, clock, s', key, meta, raw);
    }
  }

  /** After an accepted put, the next lookup of the key within the ttl serves the headers and status of the put
      with whatever the body file decodes to, and misses if that is nothing. */
  lemma NextLookupDecodes(
    config: Config, s: State, key: string, response: Response, body: Bytes, withBucket: bool, clock: Clock, s': State,
    later: Clock, s'': State, result: Lookup)
    requires OwnBodies(config, s, key) && PutPass(config, s, key, response, body, withBucket, clock, s', Stored)
    requires GetPass(config, s', key, withBucket, later, s'', result)
    requires ElapsedSeconds(clock.now, later.now) <= config.ttl
    ensures result == match Decode(config.codec, Encode(config.strategy, config.codec, body).value)
      case Some(decoded) =>
        Hit(response.headers, response.status, decoded, HeaderValue(response.headers, "content-encoding"))
      case None => Miss
  {
    hide PutPass, Encode, Decode, AfterRemoval, OwnBodies, HeaderValue;
    PutIsFresh(config, s, key, response, body, withBucket, clock, s');
  }

  /** So a raw body comes back from its next lookup if and only if nothing sniffs it, or the decoder that does
      returns it unchanged; a body that gunzip, unzstd or the Brotli decoder turns into something else is served as
      that, under the headers it was put with. */
  lemma RawBodyComesBackIff(
    config: Config, s: State, key: string, response: Response, body: Bytes, withBucket: bool, clock: Clock, s': State,
    later: Clock, s'': State, result: Lookup)
    requires config.strategy != All && OwnBodies(config, s, key)
    requires PutPass(config, s, key, response, body, withBucket, clock, s', Stored)
    requires GetPass(config, s', key, withBucket, later, s'', result)
    requires ElapsedSeconds(clock.now, later.now) <= config.ttl
    ensures result.Hit? && result.body == body <==>
      Unsniffed(config.codec, body) || ClaimedAs(config.codec, body) == Some(Some(body))
    ensures result.Hit? ==> result.headers == response.headers && result.status == response.status
    ensures result == Miss <==> ClaimedAs(config.codec, body) == Some(None)
    ensures result.Hit? && result.body != body ==> ClaimedAs(config.codec, body) == Some(Some(result.body))
  {
    hide PutPass, GetPass;
    NextLookupDecodes(config, s, key, response, body, withBucket, clock, s', later, s'', result);
    RawBodyFate(config, body);
  }
}
