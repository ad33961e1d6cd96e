/** Data of the disk-backed response cache: entries, body files, the stored metadata, and the two clocks. */
module CacheTypes {
  import opened Wrappers

  type U32 = x: int | 0 <= x < 0x1_0000_0000
  type ShardCount = x: int | 0 < x < 0x1_0000_0000 witness 1

  // ---------- Body files ----------

  /** A file directly below the cache directory's sub-directory `dir`, named `stem.ext`. */
  datatype FilePath = FilePath(dir: string, stem: string, ext: string)

  const BIN := "bin"
  const TMP := "tmp"

  function TempOf(path: FilePath): FilePath {
    path.(ext := TMP)
  }

  function Digit(d: nat): char
    requires d < 16
  {
    "0123456789abcdef"[d]
  }

  /** `{}` */
  function Decimal(n: nat): (s: string)
    ensures |s| > 0
  {
    if n < 10 then [Digit(n)] else Decimal(n / 10) + [Digit(n % 10)]
  }

  /** `{:x}` */
  function Hex(n: nat): (s: string)
    ensures |s| > 0
  {
    if n < 16 then [Digit(n)] else Hex(n / 16) + [Digit(n % 16)]
  }

  /** `shard-{:02}` */
  function ShardDir(shard: nat): string {
    "shard-" + (if shard < 10 then "0" + Decimal(shard) else Decimal(shard))
  }

  predicate IsShardDir(dir: string) {
    |dir| >= 6 && dir[..6] == "shard-"
  }

  // ---------- Compression ----------

  datatype Strategy = NoCompression | All | Auto

  /** The codecs, as functions that may fail. */
  datatype Codec = Codec(
    gzip: Bytes -> Option<Bytes>,
    gunzip: Bytes -> Option<Bytes>,
    unzstd: Bytes -> Option<Bytes>,
    unbrotli: Bytes -> Option<Bytes>)

  predicate HasGzipMagic(raw: Bytes) {
    |raw| >= 2 && raw[0] == 0x1F && raw[1] == 0x8B
  }

  predicate HasZstdMagic(raw: Bytes) {
    |raw| >= 4 && raw[0] == 0x28 && raw[1] == 0xB5 && raw[2] == 0x2F && raw[3] == 0xFD
  }

  /** What a lookup makes of the bytes of a body file; `None` is a corrupted file. */
  function Decode(codec: Codec, raw: Bytes): Option<Bytes> {
    if HasGzipMagic(raw) then codec.gunzip(raw)
    else if HasZstdMagic(raw) then codec.unzstd(raw)
    else match codec.unbrotli(raw)
      case Some(body) => Some(body)
      case None => Some(raw)
  }

  /** What a store writes. `should_compress` does not matter: `compress` is the identity for the strategies
      that consult the content type. */
  function Encode(strategy: Strategy, codec: Codec, body: Bytes): Option<Bytes> {
    if strategy == All then codec.gzip(body) else Some(body)
  }

  /** gzip output carries the magic bytes and gunzip undoes gzip. */
  ghost predicate GzipRoundTrips(codec: Codec) {
    forall body :: codec.gzip(body).Some? ==>
      HasGzipMagic(codec.gzip(body).value) && codec.gunzip(codec.gzip(body).value) == Some(body)
  }

  /** None of the three sniffing tests takes the bytes for compressed data. */
  predicate Unsniffed(codec: Codec, body: Bytes) {
    !HasGzipMagic(body) && !HasZstdMagic(body) && codec.unbrotli(body).None?
  }

  // ---------- Entries ----------

  type Headers = seq<(string, string)>

  datatype Response = Response(headers: Headers, status: nat)

  /** The first value of a header; names are stored in lower case. */
  function HeaderValue(headers: Headers, name: string): Option<string> {
    if headers == [] then None
    else if headers[0].0 == name then Some(headers[0].1)
    else HeaderValue(headers[1..], name)
  }

  predicate Contains(s: string, part: string) {
    exists i :: 0 <= i <= |s| - |part| && OccursAt(s, part, i)
  }

  predicate OccursAt(s: string, part: string, i: nat)
    requires i + |part| <= |s|
  {
    s[i..i + |part|] == part
  }

  /** Everything of a `CacheMetadata` that serialization keeps as it is. */
  datatype Record = Record(
    headers: Headers, status: nat, ttl: nat, bodyPath: FilePath, bodySize: nat, originalEncoding: Option<string>)

  datatype Metadata = Metadata(record: Record, createdAt: int)

  datatype Entry = Entry(key: string, meta: Metadata)

  /** A `MetadataEntry` as it stands in the metadata file. */
  datatype StoredEntry = StoredEntry(key: string, record: Record, timestamp: nat)

  datatype Config = Config(
    capacity: nat,
    strategy: Strategy,
    codec: Codec,
    ttl: nat,
    maxFileSize: Option<nat>,
    persistent: bool,
    shardCount: ShardCount,
    crc: string -> U32)

  /** `calculate_shard_id` */
  function ShardId(config: Config, key: string): nat {
    config.crc(key) % config.shardCount
  }

  /** `get_cache_file_path` */
  function BodyPath(config: Config, key: string): FilePath {
    var hash := config.crc(key);
    FilePath(ShardDir(hash % config.shardCount), Hex(hash), BIN)
  }

  /** No two of `keys` share a checksum. It is asked only of the keys that a run uses: some two strings always
      collide. */
  ghost predicate NoCollision(config: Config, keys: set<string>) {
    forall a, b :: a in keys && b in keys && config.crc(a) == config.crc(b) ==> a == b
  }

  // ---------- Clocks ----------

  const SECOND: int := 1_000_000_000

  /** One reading of both clocks, in nanoseconds: the monotonic clock and the time since the epoch. */
  datatype Clock = Clock(now: int, wall: nat)

  /** Whole seconds since `createdAt`; a later `createdAt` counts as zero. */
  function ElapsedSeconds(createdAt: int, now: int): nat {
    if now <= createdAt then 0 else (now - createdAt) / SECOND
  }

  predicate Expired(meta: Metadata, now: int) {
    ElapsedSeconds(meta.createdAt, now) > meta.record.ttl
  }

  /** `serialize_instant`: what is written is the time of the write, unless `instant` lies in the future. */
  function SerializeInstant(instant: int, clock: Clock): nat {
    var ahead := if instant > clock.now then instant - clock.now else 0;
    if ahead <= clock.wall then (clock.wall - ahead) / SECOND else 0
  }

  /** `deserialize_instant`; it fails on a timestamp later than the wall clock. */
  function DeserializeInstant(timestamp: nat, clock: Clock): Option<int> {
    if timestamp * SECOND <= clock.wall then Some(clock.now - (clock.wall - timestamp * SECOND)) else None
  }

  function WriteEntry(entry: Entry, clock: Clock): StoredEntry {
    StoredEntry(entry.key, entry.meta.record, SerializeInstant(entry.meta.createdAt, clock))
  }

  function WriteEntries(entries: seq<Entry>, clock: Clock): (stored: seq<StoredEntry>)
    ensures |stored| == |entries|
    ensures forall k :: 0 <= k < |entries| ==> stored[k] == WriteEntry(entries[k], clock)
  {
    seq(|entries|, k requires 0 <= k < |entries| => WriteEntry(entries[k], clock))
  }

  predicate Readable(stored: seq<StoredEntry>, clock: Clock) {
    forall k :: 0 <= k < |stored| ==> stored[k].timestamp * SECOND <= clock.wall
  }

  function ReadEntry(stored: StoredEntry, clock: Clock): Entry
    requires stored.timestamp * SECOND <= clock.wall
  {
    Entry(stored.key, Metadata(stored.record, DeserializeInstant(stored.timestamp, clock).value))
  }

  /** Deserialization of the whole file; one bad timestamp fails it. */
  function ReadEntries(stored: seq<StoredEntry>, clock: Clock): (entries: seq<Entry>)
    requires Readable(stored, clock)
    ensures |entries| == |stored|
    ensures forall k :: 0 <= k < |stored| ==> entries[k] == ReadEntry(stored[k], clock)
  {
    seq(|stored|, k requires 0 <= k < |stored| => ReadEntry(stored[k], clock))
  }
}
