/** Facts about the cache's paths, codecs and clocks that hold on their own. */
module CacheFacts {
  import opened Wrappers
  import opened CacheTypes

  // ---------- Paths ----------

  lemma DigitIsInjective(a: nat, b: nat)
    requires a < 16 && b < 16 && Digit(a) == Digit(b)
    ensures a == b
  {
  }

  lemma {:induction false} DecimalIsInjective(a: nat, b: nat)
    requires Decimal(a) == Decimal(b)
    ensures a == b
    decreases a
  {
    var s, t := Decimal(a), Decimal(b);
    assert s[|s| - 1] == Digit(a % 10) && t[|t| - 1] == Digit(b % 10);
    DigitIsInjective(a % 10, b % 10);
    if a >= 10 && b >= 10 {
      assert s[..|s| - 1] == Decimal(a / 10) && t[..|t| - 1] == Decimal(b / 10);
      DecimalIsInjective(a / 10, b / 10);
    }
  }

  lemma {:induction false} HexIsInjective(a: nat, b: nat)
    requires Hex(a) == Hex(b)
    ensures a == b
    decreases a
  {
    var s, t := Hex(a), Hex(b);
    assert s[|s| - 1] == Digit(a % 16) && t[|t| - 1] == Digit(b % 16);
    DigitIsInjective(a % 16, b % 16);
    if a >= 16 && b >= 16 {
      assert s[..|s| - 1] == Hex(a / 16) && t[..|t| - 1] == Hex(b / 16);
      HexIsInjective(a / 16, b / 16);
    }
  }

  /** Two keys share a body file exactly when their CRCs agree. */
  lemma SamePathIffSameCrc(config: Config, a: string, b: string)
    ensures BodyPath(config, a) == BodyPath(config, b) <==> config.crc(a) == config.crc(b)
  {
    if BodyPath(config, a) == BodyPath(config, b) {
      HexIsInjective(config.crc(a), config.crc(b));
    }
  }

  /** The directory that per-key cleaning scans is the one the key's body file is in; different shards have
      different directories. */
  lemma ScannedShardHoldsTheBody(config: Config, key: string, shard: nat)
    ensures BodyPath(config, key).dir == ShardDir(shard) <==> shard == ShardId(config, key)
  {
    if ShardDir(shard) == ShardDir(ShardId(config, key)) {
      ShardDirIsInjective(shard, ShardId(config, key));
    }
  }

  lemma ShardDirIsInjective(a: nat, b: nat)
    requires ShardDir(a) == ShardDir(b)
    ensures a == b
  {
    if a >= 10 { FirstDigitIsNotZero(a); }
    if b >= 10 { FirstDigitIsNotZero(b); }
    assert a < 10 <==> ShardDir(a)[6] == '0';
    assert b < 10 <==> ShardDir(b)[6] == '0';
    assert ShardDir(a)[6..] == ShardDir(b)[6..];
    if a < 10 {
      assert ShardDir(a)[7] == Digit(a) && ShardDir(b)[7] == Digit(b);
      DigitIsInjective(a, b);
    } else {
      DecimalIsInjective(a, b);
    }
  }

  lemma {:induction false} FirstDigitIsNotZero(n: nat)
    requires n > 0
    ensures Decimal(n)[0] != '0'
    decreases n
  {
    if n >= 10 {
      FirstDigitIsNotZero(n / 10);
    }
  }

  lemma BodyPathIsAShardBin(config: Config, key: string)
    ensures BodyPath(config, key).ext == BIN && IsShardDir(BodyPath(config, key).dir)
  {
    assert BodyPath(config, key).dir[..6] == "shard-";
  }

  /** The names of two body files, of the temporary file of one, and of two shard directories. */
  lemma SomePaths(config: Config, a: string, b: string)
    requires config.shardCount == 16 && config.crc(a) == 0xCA3 && config.crc(b) == 0x7C
    ensures BodyPath(config, a) == FilePath("shard-03", "ca3", "bin")
    ensures BodyPath(config, b) == FilePath("shard-12", "7c", "bin")
    ensures TempOf(BodyPath(config, a)) == FilePath("shard-03", "ca3", "tmp")
    ensures ShardDir(0) == "shard-00" && ShardDir(123) == "shard-123"
  {
    SomeNumbers();
  }

  lemma SomeNumbers()
    ensures Hex(0xCA3) == "ca3" && Hex(0x7C) == "7c"
    ensures ShardDir(3) == "shard-03" && ShardDir(12) == "shard-12" && ShardDir(0) == "shard-00"
    ensures ShardDir(123) == "shard-123"
  {
    assert Hex(0xC) == "c" && Hex(0xCA) == Hex(0xC) + "a" && Hex(0xCA3) == Hex(0xCA) + "3";
    assert Hex(0x7) == "7" && Hex(0x7C) == Hex(0x7) + "c";
    assert Decimal(1) == "1" && Decimal(12) == Decimal(1) + "2" && Decimal(123) == Decimal(12) + "3";
    assert Decimal(3) == "3" && Decimal(0) == "0";
  }

  // ---------- Codecs ----------

  /** Which decoder is asked depends on the first bytes: 1F 8B for gunzip, 28 B5 2F FD for unzstd, and Brotli for
      all others; what it refuses is taken as it is. */
  lemma DecodedByFirstBytes(codec: Codec, raw: Bytes)
    ensures [0x1F, 0x8B] <= raw ==> Decode(codec, raw) == codec.gunzip(raw)
    ensures [0x28, 0xB5, 0x2F, 0xFD] <= raw ==> Decode(codec, raw) == codec.unzstd(raw)
    ensures !([0x1F, 0x8B] <= raw) && !([0x28, 0xB5, 0x2F, 0xFD] <= raw) ==>
      Decode(codec, raw) == Some(if codec.unbrotli(raw).Some? then codec.unbrotli(raw).value else raw)
  {
    assert HasGzipMagic(raw) <==> [0x1F, 0x8B] <= raw;
    assert HasZstdMagic(raw) <==> [0x28, 0xB5, 0x2F, 0xFD] <= raw;
  }

  /** A stored body is read back as it was: always under `All`, and if nothing sniffs it otherwise. */
  lemma BodyRoundTrips(config: Config, body: Bytes)
    requires config.strategy == All ==> GzipRoundTrips(config.codec)
    requires config.strategy != All ==> Unsniffed(config.codec, body)
    ensures var raw := Encode(config.strategy, config.codec, body);
      raw.Some? ==> Decode(config.codec, raw.value) == Some(body)
  {
  }

  /** What the decoder that claims a raw body makes of it; `None` if none of the three claims it. Brotli has no
      magic and claims what it can decode. */
  function ClaimedAs(codec: Codec, body: Bytes): Option<Option<Bytes>> {
    if HasGzipMagic(body) then Some(codec.gunzip(body))
    else if HasZstdMagic(body) then Some(codec.unzstd(body))
    else if codec.unbrotli(body).Some? then Some(codec.unbrotli(body))
    else None
  }

  /** What becomes of a body that is stored raw: it is read back if and only if nothing claims it, or the decoder
      that does returns what it was given. Otherwise the next lookup misses exactly when that decoder refuses it,
      and serves another body exactly when the decoder makes another body of it. */
  lemma RawBodyFate(config: Config, body: Bytes)
    requires config.strategy != All
    ensures Encode(config.strategy, config.codec, body) == Some(body)
    ensures Decode(config.codec, body) == Some(body) <==>
      Unsniffed(config.codec, body) || ClaimedAs(config.codec, body) == Some(Some(body))
    ensures Decode(config.codec, body).None? <==>
      || (HasGzipMagic(body) && config.codec.gunzip(body).None?)
      || (!HasGzipMagic(body) && HasZstdMagic(body) && config.codec.unzstd(body).None?)
    ensures (exists other :: other != body && Decode(config.codec, body) == Some(other)) <==>
      exists other :: other != body && ClaimedAs(config.codec, body) == Some(Some(other))
  {
    var decoded, claimed := Decode(config.codec, body), ClaimedAs(config.codec, body);
    if claimed.Some? {
      assert decoded == claimed.value;
      if decoded.Some? && decoded.value != body {
        assert claimed == Some(Some(decoded.value));
      }
    }
  }

  // ---------- Clocks ----------

  /** `createdAt` seen on the wall clock, for a process whose clocks differ by `offset`. */
  function WallOf(instant: int, offset: int): int {
    instant + offset
  }

  /** The two clocks advance together in one process. */
  predicate InStep(clock: Clock, offset: int) {
    clock.wall == clock.now + offset
  }

  /** An entry that is written and read back, possibly by another process with another offset, appears to be
      created within the second before the write, whatever its creation time was: less than one second
      earlier than it was, and any amount later. */
  lemma ReloadedCreationTime(createdAt: int, write: Clock, read: Clock, offset: int, offset': int)
    requires InStep(write, offset) && InStep(read, offset') && createdAt <= write.now && write.wall <= read.wall
    ensures var stored := SerializeInstant(createdAt, write);
      var back := DeserializeInstant(stored, read);
      && back.Some?
      && write.wall - SECOND < WallOf(back.value, offset') <= write.wall
      && WallOf(createdAt, offset) - SECOND < WallOf(back.value, offset')
  {
    var stored := write.wall / SECOND;
    assert stored * SECOND <= write.wall < stored * SECOND + SECOND;
  }

  /** So a reloaded entry is unexpired only before its last write plus its ttl plus one second. */
  lemma ReloadedEntryExpires(
    record: Record, createdAt: int, write: Clock, read: Clock, now: int, offset: int, offset': int)
    requires InStep(write, offset) && InStep(read, offset') && createdAt <= write.now && write.wall <= read.wall
    requires var back := DeserializeInstant(SerializeInstant(createdAt, write), read);
      back.Some? ==> !Expired(Metadata(record, back.value), now)
    ensures WallOf(now, offset') < write.wall + (record.ttl + 1) * SECOND
  {
    ReloadedCreationTime(createdAt, write, read, offset, offset');
    var back := DeserializeInstant(SerializeInstant(createdAt, write), read).value;
    if now > back {
      assert (now - back) / SECOND <= record.ttl;
      assert now - back < (record.ttl + 1) * SECOND;
    }
  }

  /** An instant in the future comes back from the past, as far before the write as it lay after it, to the second
      below; and from the epoch on at the earliest. */
  lemma FutureInstantIsMirrored(instant: int, write: Clock, read: Clock, offset: int, offset': int)
    requires InStep(write, offset) && InStep(read, offset') && write.now < instant && write.wall <= read.wall
    ensures var back := DeserializeInstant(SerializeInstant(instant, write), read);
      var mirrored := write.wall - (instant - write.now);
      && back.Some?
      && (mirrored >= 0 ==> mirrored - SECOND < WallOf(back.value, offset') <= mirrored)
      && (mirrored < 0 ==> WallOf(back.value, offset') == 0)
  {
    var stored := SerializeInstant(instant, write);
    var mirrored := write.wall - (instant - write.now);
    if mirrored >= 0 {
      assert stored == mirrored / SECOND && stored * SECOND <= mirrored < stored * SECOND + SECOND;
    }
  }

  /** A timestamp is read back if and only if it is not later than the wall clock; then it is that time. */
  lemma TimestampIsRead(timestamp: nat, read: Clock, offset: int)
    requires InStep(read, offset)
    ensures DeserializeInstant(timestamp, read).Some? <==> timestamp * 1_000_000_000 <= read.wall
    ensures DeserializeInstant(timestamp, read).Some? ==>
      WallOf(DeserializeInstant(timestamp, read).value, offset) == timestamp * 1_000_000_000
  {
  }

  /** The creation time survives exactly when it is a whole second on the wall clock and the write follows
      within that second. */
  lemma CreationTimeSurvivesIff(createdAt: int, write: Clock, read: Clock, offset: int, offset': int)
    requires InStep(write, offset) && InStep(read, offset') && createdAt <= write.now && write.wall <= read.wall
    ensures var back := DeserializeInstant(SerializeInstant(createdAt, write), read);
      back.Some? && (WallOf(back.value, offset') == WallOf(createdAt, offset) <==>
        WallOf(createdAt, offset) % SECOND == 0 && write.now - createdAt < SECOND)
  {
    ReloadedCreationTime(createdAt, write, read, offset, offset');
    var stored := write.wall / SECOND;
    assert stored * SECOND <= write.wall < stored * SECOND + SECOND;
    assert (stored * SECOND) % SECOND == 0;
    var created := WallOf(createdAt, offset);
    if created % SECOND == 0 && write.now - createdAt < SECOND {
      assert created == (created / SECOND) * SECOND;
      assert created / SECOND == stored;
    }
  }

  /** Each rewrite of the metadata file renews the entries in it: between the end of its life by the creation time
      and the end of its life by the whole second of the rewrite, and only then, a reloaded entry is served
      although it has expired. */
  lemma RewritingProlongsLife(
    record: Record, createdAt: int, write: Clock, read: Clock, now: int, offset: int, offset': int)
    requires InStep(write, offset) && InStep(read, offset') && createdAt <= write.now && write.wall <= read.wall
    ensures var back := DeserializeInstant(SerializeInstant(createdAt, write), read);
      var life := (record.ttl + 1) * SECOND;
      && back.Some?
      && (Expired(Metadata(record, createdAt), WallOf(now, offset' - offset))
          && !Expired(Metadata(record, back.value), now) <==>
          WallOf(createdAt, offset) + life <= WallOf(now, offset') < (write.wall / SECOND) * SECOND + life)
  {
    ReloadedCreationTime(createdAt, write, read, offset, offset');
    var back := DeserializeInstant(SerializeInstant(createdAt, write), read).value;
    ExpiredIff(Metadata(record, createdAt), WallOf(now, offset' - offset));
    ExpiredIff(Metadata(record, back), now);
    assert WallOf(back, offset') == (write.wall / SECOND) * SECOND;
  }

  // ---------- The end of an entry's life ----------

  function ExpiresAt(meta: Metadata): int {
    meta.createdAt + (meta.record.ttl + 1) * SECOND
  }

  lemma ExpiredIff(meta: Metadata, now: int)
    ensures Expired(meta, now) <==> now >= ExpiresAt(meta)
  {
    var ttl := meta.record.ttl;
    if now > meta.createdAt {
      var age := now - meta.createdAt;
      assert age / SECOND >= ttl + 1 <==> age >= (ttl + 1) * SECOND;
    } else {
      assert (ttl + 1) * SECOND > 0;
    }
  }

  /** Evicting `victim` never throws out an unexpired entry while an expired one stays if and only if no entry's
      life ends before the victim's. */
  lemma EvictionSparesNoExpiredIff(cache: map<string, Metadata>, victim: string)
    requires victim in cache
    ensures (forall now, key :: key in cache && Expired(cache[key], now) ==> Expired(cache[victim], now)) <==>
      (forall key :: key in cache ==> ExpiresAt(cache[victim]) <= ExpiresAt(cache[key]))
  {
    forall now, key | key in cache
      ensures Expired(cache[key], now) <==> now >= ExpiresAt(cache[key])
      ensures Expired(cache[victim], now) <==> now >= ExpiresAt(cache[victim])
    {
      ExpiredIff(cache[key], now);
      ExpiredIff(cache[victim], now);
    }
    if key :| key in cache && ExpiresAt(cache[key]) < ExpiresAt(cache[victim]) {
      assert Expired(cache[key], ExpiresAt(cache[key])) && !Expired(cache[victim], ExpiresAt(cache[key]));
    }
  }
}
