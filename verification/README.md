# Stryvo: a verified model

Stryvo is a reverse proxy: it routes hosts to upstreams, keeps responses in a disk-backed cache, obtains and renews
certificates over ACME, and writes its logs through a buffered task. This project models the parts of it that are
state machines or algorithms and proves what they keep.

**The response cache.** `CacheService.SccMemoryCache` is the cache object: the mutex-guarded map, the body files and
the metadata file are its fields, and each public operation is a method with the control flow of the original, proved
to do what `CacheSpec` says, and beside it what `CacheEffects` says of single entries and single files. On top of that
there are two views.

- *One operation at a time* (`CacheRefinement`, `CacheRuns`, `CacheReload`, `CacheRestart`). Every run is a run of a
  plain bounded map with a time to live, with the same answers, also across restarts in which the configuration may
  change. A lookup hits, with the headers, status and body of the last accepted put of its key, exactly when that put
  is neither expired nor evicted (`LookupAnswersLastPut`).
- *Many tasks at once* (`CacheTasks`, `CacheTaskSafety`, `CacheTaskCapacity`, `CacheTornHit`, `CacheUndisturbed`,
  `CacheMixedHits`, `CacheFoundAgain`, `CacheLostPuts`). One step is one locked
  region or one file operation; between any two of them other tasks may run, file operations may fail, the clock may
  advance, a task may be cancelled, and the process may crash and start again. In every reachable state each body file
  is the whole encoded body of one accepted put of its path, every hit is genuine, and the map is within its capacity.
  The two views are one: a task that runs alone, without failing file operations and with the clock standing still,
  comes to its end (`CacheAloneEnds`) and has then done exactly what the whole operation does (`CacheAlone`). And in
  every interleaving a `store` lists the map as it was at one moment (`CacheLocking`).

Some properties that one would expect hold only under a condition.

- *Keys with one checksum share a body file.* Any checksum has such keys (`SomeKeysCollide`). The theorems about runs
  speak of any set of keys without such a pair, and over a set with one they fail
  (`LookupsAreRightIffNoCollision`).
- *A raw body is sniffed when it is read.* It comes back if and only if none of the three tests claims it or the decoder
  that does returns it unchanged. Otherwise the lookup misses if the decoder refuses it, and serves a different body if
  not (`RawBodyFate`, `RawBodyComesBackIff`). So a `.gz` file that is cached raw is served decompressed, under the
  headers it was put with.
- *Headers and body of a hit may belong to two puts.* Over all interleavings, the hits for a key are whole if and only
  if mixing the puts of the key yields nothing new (`HitsAreWholeIffClosed`). In a single run they are whole over every
  stretch in which lookups and puts of the key keep out of each other's way, whatever other keys, the background passes
  and failing file operations do (`HitsStayWhole`). Each way of not keeping out of the way leads to a mixed hit: two
  overlapping puts (`HitMayMixTwoPuts`), a lookup during one put (`LookupDuringPutMixes`), a put that is dropped
  between renaming its body and inserting its entry (`DroppedPutMixes`), and a crash between a put and the `store`
  after it (`CrashMixes`).
- *A completed put may not be found again within its ttl.* It stays served exactly until a step removes its entry,
  deletes its body or evicts it (`ServedIffNotTaken`). Evictions and failing reads aside, only a task that looked at the
  map before the put can do that; if there is none, every later lookup finds the put (`PutIsFoundAgain`). If there is
  one, a lookup that saw the expired entry may remove the new one (`LookupTakesNewEntry`), and a `store` that saw it
  may delete the new body before its entry is inserted (`StoreTakesNewBody`).

**Virtual-host routing** (`DomainLabels`, `VHostMatcher`, `VHostMatcherLaws`, `VHostRouter`, `CertificateNames`). The
wildcard matcher searches from the right and never goes back. What it accepts always has a complete split over the
pattern. The converse holds for exactly the patterns in which every literal directly left of a wildcard has a wildcard
directly left of itself; for any other pattern a rejected domain with a split is constructed.

**Certificates** (`AcmeOrder`, `AcmeManager`, `CertificateManager`, `CertificateEvents`). The order loop against any
behaviour of the ACME server, the manager's passes over its certificate map, and the channel that keeps the TLS side in
step with that map. A renewal writes the files of its predecessor, so an acceptor records which generation of its files
it was made from. With every event delivered, the acceptors are always of the right files up to the queue. They are of
the present generation unless another domain, which uses the same files, has rewritten them since the domain's last
event was taken (`ManagersAgree`); `AgreesIff` is the exact condition for every run, with any losses.

**Two smaller machines.** `BodyCollection` is the per-request context that collects an upstream body for the cache.
`LogWriter` is the buffered log writer.

## Assumptions

- CRC-32 is an arbitrary function to 32-bit numbers. `NoCollision(config, keys)` says that no two of the given keys
  share a checksum. `SampleRun` is a run that meets it, and all the other hypotheses of the theorems about runs.
- The codecs are arbitrary partial functions. For the strategy `All`, `GzipRoundTrips` says that gunzip undoes gzip and
  that gzip output starts with the two magic bytes. For the other strategies a body is stored raw, and runs assume
  `Unsniffed`; the exact fate of a raw body needs no assumption.
- In `CertificateEvents` a change never puts files in an earlier generation, and the acceptors at the start are made
  from the files as they then are.
- One write or one rename of a file is one step. A whole operation of `SccMemoryCache` reads each clock once.
- The ACME server, directory contents, certificate loading, Unicode's tables and which attempts succeed are parameters
  of the methods that meet them, or constants of which nothing is said.
- Where a hash map is walked, the order is open.

## Where the code and its description differ

- The caching guide (source/stryvo/assets/docs/caching-system.md) speaks of LRU eviction. The code evicts the entry
  with the smallest creation time, and a lookup does not refresh it.
- The caching guide names the directories `shard_NN`; the code writes `shard-NN`.
- `serialize_instant` is described as storing the creation time. It stores the time of the write unless the instant lies
  in the future (`CreationTimeSurvivesIff`, `RewritingProlongsLife`).
- The order loop's comment bounds the waiting by a few minutes. The bound is 29.5 minutes (`WaitingIsBounded`).
- After a lookup that missed, the response is stored whatever `is_cacheable` says of it (`OnePutPerResponse`).
- `run_startup_acquisition_after` logs an installed certificate also when another certificate covers the domain; then
  nothing enters the map and no event is sent (`AcmeManager.GetCertificate`).

## Model

| member | source | states |
|---|---|---|
| `CacheService.SccMemoryCache.Store` | source/stryvo/src/proxy/cache/persistence.rs:108-173 | exactly the bodies of entries whose life is over are deleted, the map stays, and exactly the other entries are written, with the second of the write |
| `CacheService.SccMemoryCache.Load` | source/stryvo/src/proxy/cache/persistence.rs:220-280 | which listed entries enter the map (the last one of a key that is unexpired and has its body), which bodies go, and that one timestamp from the future fails it without effect |
| `CacheService.SccMemoryCache.CleanEntryLoop` | source/stryvo/src/proxy/cache/persistence.rs:399-434 | which stored entries a cleaner keeps and which bodies it deletes |
| `CacheService.SccMemoryCache.CleanStaleMetadata` | source/stryvo/src/proxy/cache/persistence.rs:282-355 | the map stays; which entries are written again, in their order and with which time, which bodies go, and when it fails |
| `CacheService.SccMemoryCache.CleanStaleMetadataWithKey` | source/stryvo/src/proxy/cache/persistence.rs:357-467 | the same for one shard, where also every body that no entry of the map refers to goes |
| `CacheService.SccMemoryCache.CleanOrphanedFiles` | source/stryvo/src/proxy/cache/service.rs:575-640 | in directories whose name begins with `shard-` a `bin` file remains if and only if some entry refers to it, and no `tmp` file; every other file remains, and what remains is unchanged |
| `CacheService.SccMemoryCache.HandlePersistenceAfterRemoval` | source/stryvo/src/proxy/cache/service.rs:162-174 | a store and a cleaning of the key's shard, when the cache is persistent |
| `CacheService.SccMemoryCache.GetCache` | source/stryvo/src/proxy/cache/service.rs:176-338 | a hit if and only if the entry's life is not over and its body is there and can be decoded, with its fields and no change; a miss leaves neither entry nor body of the key, and without persistence does no more |
| `CacheService.SccMemoryCache.Oldest` | source/stryvo/src/proxy/cache/service.rs:434-436 | an entry of least creation time |
| `CacheService.SccMemoryCache.InsertEntry` | source/stryvo/src/proxy/cache/service.rs:430-445 | an eviction happens exactly when the map is full and the key is new, and takes an oldest entry |
| `CacheService.SccMemoryCache.WriteBody` | source/stryvo/src/proxy/cache/service.rs:404-418 | the body stands under its path and the temporary file is gone |
| `CacheService.SccMemoryCache.StoreEncoded` | source/stryvo/src/proxy/cache/service.rs:404-469 | the write, the insertion, the deletion of the evicted body and the persistence passes as one state change |
| `CacheService.SccMemoryCache.PutCache` | source/stryvo/src/proxy/cache/service.rs:340-473 | skipped if and only if the body is too long or the first `cache-control` value has `no-store` in it in any case; failed if and only if gzip then fails; neither has an effect; an accepted put brings its entry, field by field, and its body, and takes out one oldest entry exactly if the map was full |
| `CacheEffects.DecisionIff` | source/stryvo/src/proxy/cache/service.rs:348-401 | the three outcomes of the tests of a put, by the length of the body, the characters of the header, and gzip |
| `CacheEffects.NoStoreIsNotNoCache` | source/stryvo/src/proxy/cache/service.rs:361-371 | a response with `No-Store` among its directives is skipped and one with `no-cache` is stored |
| `CacheEffects.StoreHasEffect` | source/stryvo/src/proxy/cache/persistence.rs:108-173 | what a `store` does to each file and each entry |
| `CacheEffects.LoadPassHasEffect` | source/stryvo/src/proxy/cache/persistence.rs:220-280 | what a `load` does to each file and each key, with the age that each timestamp gives |
| `CacheEffects.CleanPassHasEffect` | source/stryvo/src/proxy/cache/persistence.rs:282-467 | what a cleaning does to each file and each stored entry, for every shard and for one |
| `CacheEffects.GetHasEffect` | source/stryvo/src/proxy/cache/service.rs:176-338 | what a lookup does to the key's entry and body in each case |
| `CacheEffects.PutHasEffect` | source/stryvo/src/proxy/cache/service.rs:340-473 | what an accepted put does to each entry and each file |
| `CacheFacts.DecimalIsInjective` | source/stryvo/src/proxy/cache/service.rs:138-147 | different shard numbers are written differently |
| `CacheFacts.HexIsInjective` | source/stryvo/src/proxy/cache/service.rs:138-147 | different checksums are written differently |
| `CacheFacts.SamePathIffSameCrc` | source/stryvo/src/proxy/cache/service.rs:138-147 | two keys share a body file if and only if their checksums agree |
| `CacheFacts.ScannedShardHoldsTheBody` | source/stryvo/src/proxy/cache/persistence.rs:436-453 | the directory that per-key cleaning scans is the one with the key's body file, and no other shard's is |
| `CacheFacts.SomePaths` | source/stryvo/src/proxy/cache/service.rs:138-147 | the names of body files, temporary files and directories for some checksums |
| `CacheFacts.DecodedByFirstBytes` | source/stryvo/src/proxy/cache/service.rs:269-326 | which decoder is asked, by the first bytes, and that what Brotli refuses is taken as it is |
| `CacheFacts.BodyRoundTrips` | source/stryvo/src/proxy/cache/service.rs:269-326 | a stored body is read back as it was: always under `All`, and when nothing sniffs it otherwise |
| `CacheFacts.RawBodyFate` | source/stryvo/src/proxy/cache/service.rs:269-326 | a raw body is read back if and only if nothing sniffs it or its decoder returns it unchanged; which raw bodies cannot be read, and which are read as another body |
| `CacheBodies.NextLookupDecodes` | source/stryvo/src/proxy/cache/service.rs:254-338 | after an accepted put of any body the next lookup within the ttl serves the headers and status of the put with whatever the stored bytes decode to, and misses if they do not |
| `CacheBodies.RawBodyComesBackIff` | source/stryvo/src/proxy/cache/service.rs:254-338 | so through the cache a raw body comes back under exactly that condition, is missed exactly when the decoder that claims it refuses it, and is otherwise served as what that decoder makes of it |
| `CacheFacts.ReloadedCreationTime` | source/stryvo/src/proxy/cache/service.rs:60-89 | a reloaded creation time lies within the second before the write and is less than a second earlier than the original |
| `CacheFacts.ReloadedEntryExpires` | source/stryvo/src/proxy/cache/service.rs:60-89 | a reloaded entry is served only before the last write plus its ttl plus one second |
| `CacheFacts.CreationTimeSurvivesIff` | source/stryvo/src/proxy/cache/service.rs:60-75 | the creation time survives writing and reading if and only if it is a whole second and the write follows within that second |
| `CacheFacts.FutureInstantIsMirrored` | source/stryvo/src/proxy/cache/service.rs:60-75 | an instant in the future comes back from as far before the write |
| `CacheFacts.TimestampIsRead` | source/stryvo/src/proxy/cache/service.rs:77-89 | a timestamp is read if and only if it is not later than the wall clock, and then as that time |
| `CacheFacts.RewritingProlongsLife` | source/stryvo/src/proxy/cache/service.rs:60-75 | for every creation time, rewrite and reading: an entry that has expired by its creation time is served after the rewrite exactly until its ttl plus one second after the second of the rewrite |
| `CacheFacts.EvictionSparesNoExpiredIff` | source/stryvo/src/proxy/cache/service.rs:430-445 | evicting a victim never spares an expired entry for an unexpired one if and only if no entry's life (creation time, ttl and one second) ends before the victim's |
| `CacheRefinement.StoreRefines` | source/stryvo/src/proxy/cache/persistence.rs:123-150 | for keys that do not collide, `store` deletes no body of an unexpired entry, and the abstract map does not change |
| `CacheRefinement.CleaningDeletesOnlyOrphans` | source/stryvo/src/proxy/cache/persistence.rs:282-467 | neither cleaner deletes a body that some entry refers to, or changes the map or a file |
| `CacheRefinement.GetRefines` | source/stryvo/src/proxy/cache/service.rs:176-338 | a lookup is the lookup of the bounded map: a hit exactly for an unexpired item, and otherwise the item goes |
| `CacheRefinement.PutRefines` | source/stryvo/src/proxy/cache/service.rs:340-473 | a put is the put of the bounded map, with the same outcome |
| `CacheRefinement.StepRefines` | source/stryvo/src/proxy/cache/service.rs:176-473 | for keys that do not collide, every operation is the same operation of the bounded map with the same answer, and every unexpired entry keeps its body file |
| `CacheRuns.RunRefines` | source/stryvo/src/proxy/cache/service.rs:176-474 | every run of operations from the empty map, over keys that do not collide, is a run of the bounded map with the same answers |
| `CacheRuns.LookupAnswersLastPut` | source/stryvo/src/proxy/cache/service.rs:176-474 | in every such run of the cache a lookup hits with headers, status and body of the last accepted put of its key exactly when that has neither expired nor been evicted |
| `CacheRuns.ModelNeverExceedsCapacity` | source/stryvo/src/proxy/cache/service.rs:430-445 | in no run does the map exceed its capacity |
| `CacheRuns.DeletionsAreSafe` | source/stryvo/src/proxy/cache/service.rs:185-252 | a body that an entry of the new map refers to is deleted only if that entry is expired, and only where `store` takes part |
| `CacheCollision.AnyCallsRun` | source/stryvo/src/proxy/cache/service.rs:176-640 | any operations at any times, from any state, are the operations of some run |
| `CacheCollision.SomeKeysCollide` | source/stryvo/src/proxy/cache/service.rs:138-147 | whatever the checksum, two keys share it and so their body file |
| `CacheCollision.TwoPutsThenALookup` | source/stryvo/src/proxy/cache/service.rs:176-473 | two puts and a lookup of the first key: it gets its own headers, and the second body if and only if the checksums agree |
| `CacheCollision.LookupsAreRightIffNoCollision` | source/stryvo/src/proxy/cache/service.rs:176-473 | with room for two entries and two different bodies that are stored, all lookups of all runs over a set of keys answer with the last accepted put if and only if no two of the keys collide |
| `CacheCollision.SampleRun` | source/stryvo/src/proxy/cache/service.rs:176-473 | a configuration, two keys and a run that meet the hypotheses of the theorems about runs |
| `CacheReload.StoreThenLoad` | source/stryvo/src/proxy/cache/persistence.rs:108-280 | exactly the entries unexpired at the store, unexpired at the load by their stored time, and with their file come back, with all but the creation time unchanged |
| `CacheReload.StoreStamps` | source/stryvo/src/proxy/cache/persistence.rs:123-173 | `store` lists exactly the unexpired entries, each once, all with the second of the write |
| `CacheReload.LoadOfListed` | source/stryvo/src/proxy/cache/persistence.rs:220-280 | a listed key is loaded if and only if its body is there and it is unexpired by the stamp |
| `CacheReload.CleanKeepsOtherShard` | source/stryvo/src/proxy/cache/persistence.rs:357-434 | cleaning one shard lists for a key of another exactly what was listed, keeps its body, and rewrites the time |
| `CacheReload.CleaningsKeepOtherShards` | source/stryvo/src/proxy/cache/persistence.rs:357-434 | so do any number of such cleanings |
| `CacheReload.CleaningOtherShardsNeverDropsAnEntry` | source/stryvo/src/proxy/cache/persistence.rs:108-434 | a store, any cleanings of other shards and a restart: the key is back, with its record, if and only if its entry was unexpired at the store, its body was there, and it is unexpired by the time of the last rewrite |
| `CacheRestart.StepStaysCurrent` | source/stryvo/src/proxy/cache/persistence.rs:108-467 | in a persistent cache with the bucket at hand every operation leaves the metadata file listing exactly the unexpired entries; a cleaning does if nothing listed has outlived its ttl |
| `CacheRestart.LifeEndsCurrent` | source/stryvo/src/proxy/cache/service.rs:162-474 | so a life ends with an up-to-date file as soon as it has stored something, whatever it does afterwards, if no cleaning comes too late |
| `CacheRestart.RestartRefines` | source/stryvo/src/proxy/cache/persistence.rs:108-280 | a restart from an up-to-date metadata file is one step of the bounded map: what has expired is dropped, the rest gets the time of the last rewrite |
| `CacheRestart.LivesRefine` | source/stryvo/src/proxy/cache/persistence.rs:108-280 | runs over any number of lives of the process, each with its own capacity, ttl and strategy, refine the bounded map with that restart step; a life that another follows may end at any operation that leaves an up-to-date file |
| `CacheTaskSafety.ExecIsSafe` | source/stryvo/src/proxy/cache/service.rs:176-474 | each single step of a task keeps bodies whole and tasks honest, given that the others are |
| `CacheTaskSafety.WorldStepIsSafe` | source/stryvo/src/proxy/cache/persistence.rs:108-467 | so does each step of the whole system, with cancelled tasks, crashes and restarts |
| `CacheTaskSafety.EveryRunIsSafe` | source/stryvo/src/proxy/cache/service.rs:176-474 | the invariant holds in every reachable state |
| `CacheAlone.LookUpAloneIsGet` | source/stryvo/src/proxy/cache/service.rs:176-338 | the steps of a lookup that runs alone end in the state and the answer of the whole lookup |
| `CacheAlone.PutAloneIsPut` | source/stryvo/src/proxy/cache/service.rs:340-473 | so do those of an accepted put |
| `CacheAlone.StoreAloneIsStore` | source/stryvo/src/proxy/cache/persistence.rs:108-173 | those of a `store` |
| `CacheAlone.CleaningAloneIsClean` | source/stryvo/src/proxy/cache/persistence.rs:282-467 | those of a cleaning, for every shard and for one |
| `CacheAlone.PeriodicPassAlone` | source/stryvo/src/proxy/cache/persistence.rs:469-491 | those of a periodic round, which is a `store` and a cleaning of every shard |
| `CacheAlone.OrphansAloneIsOrphan` | source/stryvo/src/proxy/cache/service.rs:575-640 | those of an orphan cleanup |
| `CacheAlone.LoadAloneIsLoad` | source/stryvo/src/proxy/cache/persistence.rs:220-280 | and those of a `load` |
| `CacheAloneEnds.OperationEnds` | source/stryvo/src/proxy/cache/service.rs:176-640 | each of these operations, left alone with the lock free, comes to its end in every state |
| `CacheLocking.NeedsLockFree` | source/stryvo/src/proxy/cache/service.rs:176-445 | lookups, removals, insertions and the steps that collect paths happen only while the lock is free |
| `CacheLocking.EveryRunIsLocked` | source/stryvo/src/proxy/cache/persistence.rs:108-173 | in every reachable state the lock is held by the one task whose steps need it, and what a scan has listed is right for the map as it is |
| `CacheLocking.LockedMapStands` | source/stryvo/src/proxy/cache/persistence.rs:108-173 | while a task holds the lock no step of another changes the map |
| `CacheLocking.StoreListsOneMoment` | source/stryvo/src/proxy/cache/persistence.rs:108-173 | in every interleaving the list that a `store` writes has exactly the entries of the map, at one moment, that are unexpired by the time at which the lock was taken |
| `CacheTaskSafety.EveryBodyFileIsWhole` | source/stryvo/src/proxy/cache/service.rs:404-418 | in every reachable state every `.bin` file is the whole encoding of the body of one accepted put whose key maps to that path |
| `CacheTaskSafety.EveryHitIsGenuine` | source/stryvo/src/proxy/cache/service.rs:254-338 | every hit for a key that shares its checksum with no other put key carries what the encoded body of an accepted put of that key decodes to, the body itself if it can be read back, and the headers and status of one |
| `CacheTaskSafety.EvictionPrefersExpired` | source/stryvo/src/proxy/cache/service.rs:430-445 | in every reachable state, a put that evicts takes an expired entry whenever there is one |
| `CacheTaskSafety.CancelStepIsSafe` | source/stryvo/src/proxy/cache/service.rs:176-474 | a task that is dropped at any point, with the lock it holds released, leaves the invariant intact |
| `CacheTornHit.HitMayMixTwoPuts` | source/stryvo/src/proxy/cache/service.rs:404-445 | for any two accepted puts of one key there is a run with these two puts only that ends in a hit with the headers of one and the body of the other |
| `CacheTornHit.HitsAreWholeIffClosed` | source/stryvo/src/proxy/cache/service.rs:254-445 | for puts whose bodies can be read back: every hit for a key in every run whose puts of it lie in a given set is one put of the set, if and only if the set is closed under mixing the headers and status of one put with the body of another |
| `CacheUndisturbed.HitsStayWhole` | source/stryvo/src/proxy/cache/service.rs:176-474 | in every run, over every stretch in which the process serves and lookups and puts of a key keep out of each other's way, each lookup of it that hits gets headers, status and body of one put |
| `CacheUndisturbed.OthersOnlyTakeAway` | source/stryvo/src/proxy/cache/service.rs:176-640 | a step that is not part of a put of a key with the same checksum leaves the entry and the files of a key as they are, or removes them |
| `CacheMixedHits.LookupDuringPutMixes` | source/stryvo/src/proxy/cache/service.rs:254-445 | a lookup that overlaps one put hits with the headers of the put before and the body of this one |
| `CacheMixedHits.DroppedPutMixes` | source/stryvo/src/proxy/cache/service.rs:404-445 | so does a lookup after a put that was dropped between renaming and insertion, with no other task under way |
| `CacheMixedHits.CrashMixes` | source/stryvo/src/proxy/cache/persistence.rs:108-280 | so does a lookup after a crash between an insertion and the `store` after it, though no two operations have overlapped |
| `CacheFoundAgain.ServedIffNotTaken` | source/stryvo/src/proxy/cache/service.rs:176-640 | over a stretch without another put of the key, the entry and body of a put are still served if and only if no step has removed the entry, deleted the body or evicted the entry |
| `CacheFoundAgain.InsertionServes` | source/stryvo/src/proxy/cache/service.rs:430-469 | an insertion whose body is still in its file leaves both served, and nothing that the task still has to do takes them away |
| `CacheFoundAgain.PutIsFoundAgain` | source/stryvo/src/proxy/cache/service.rs:176-338 | if no task that is under way has looked at the map before the put, then within the ttl, without eviction and failing reads, every lookup that begins later answers with the put |
| `CacheLostPuts.LookupTakesNewEntry` | source/stryvo/src/proxy/cache/service.rs:185-204 | a run in which a lookup that found an expired entry removes the entry and the body of a put that has completed since |
| `CacheLostPuts.StoreTakesNewBody` | source/stryvo/src/proxy/cache/persistence.rs:123-150 | a run in which a `store` that saw an expired entry deletes the renamed body of a put that then inserts its entry |
| `CacheTaskCapacity.InsertKeepsBound` | source/stryvo/src/proxy/cache/service.rs:430-445 | the locked region of a put keeps the bound |
| `CacheTaskCapacity.BootFits` | source/stryvo/src/proxy/cache/persistence.rs:244-270 | each step of `load` moves keys from its list to the map and keeps their union within the bound |
| `CacheTaskCapacity.MapStaysWithinCapacity` | source/stryvo/src/proxy/cache/service.rs:430-445 | in every reachable state, with crashes and restarts, the map and the metadata file hold at most `capacity` keys (one if it is 0) |
| `VHostMatcher.NextLiteral` | source/stryvo/src/proxy/vhost/router.rs:464-468 | the search for the next literal of the pattern stops where the wildcard run starts |
| `VHostMatcher.NearestLabel` | source/stryvo/src/proxy/vhost/router.rs:477-493 | the search in the domain finds the nearest equal label, or none |
| `VHostMatcher.MatchDomainParts` | source/stryvo/src/proxy/vhost/router.rs:430-523 | the loops over the two indexes decide the greedy choice |
| `VHostMatcherLaws.SplitsIffHasSplit` | source/stryvo/src/proxy/vhost/router.rs:430-523 | a split read from the right exists if and only if the domain can be cut with one piece per pattern label |
| `VHostMatcherLaws.AcceptedDomainsSplit` | source/stryvo/src/proxy/vhost/router.rs:430-523 | every accepted domain splits completely, literals equal up to case and every wildcard run taking at least one label |
| `VHostMatcherLaws.NearestIsSafeReadable` | source/stryvo/src/proxy/vhost/router.rs:430-523 | the safe patterns: they begin with a wildcard and have no two adjacent literals left of their last one |
| `VHostMatcherLaws.SafePatternAcceptsItsSplits` | source/stryvo/src/proxy/vhost/router.rs:430-523 | a safe pattern accepts exactly the domains that are long enough and have some split |
| `VHostMatcherLaws.GreedyIsCompleteIffSafe` | source/stryvo/src/proxy/vhost/router.rs:430-523 | that equivalence holds for all domains if and only if the pattern is safe |
| `VHostMatcherLaws.MisleadingDomainIsRejected` | source/stryvo/src/proxy/vhost/router.rs:477-497 | for every unsafe pattern, a domain that it can cut and that the matcher rejects |
| `VHostMatcherLaws.NearestChoiceLosesADomain` | source/stryvo/src/proxy/vhost/router.rs:477-497 | `a.*.c` rejects `a.a.y.c` |
| `VHostMatcherLaws.EqualCountsMatchByPosition` | source/stryvo/src/proxy/vhost/router.rs:430-523 | with equal label counts and no adjacent wildcards, acceptance is a match position by position |
| `VHostMatcherLaws.AdjacentWildcardsShareLabels` | source/stryvo/src/proxy/vhost/router.rs:464-473 | adjacent wildcards share the labels of their run |
| `VHostMatcherLaws.AcceptsBySuffix` | source/stryvo/src/proxy/vhost/router.rs:430-523 | with leading wildcards only, acceptance is the literal suffix and enough labels |
| `VHostMatcherLaws.MatchesItsOwnWildcard` | source/stryvo/src/proxy/vhost/router.rs:430-523 | `*` in place of the first label accepts the domain |
| `VHostRouter.IsValidWildcardPattern` | source/stryvo/src/proxy/vhost/router.rs:370-410 | at least two labels, the last one literal, each one `*` or a valid label |
| `VHostRouter.IsValidDomainName` | source/stryvo/src/proxy/vhost/router.rs:545-565 | at most 253 bytes and every label valid: at most 63 bytes, alphanumeric at both ends, alphanumeric or `-` within |
| `VHostRouter.AsciiLabelIff` | source/stryvo/src/proxy/vhost/router.rs:412-428 | an ASCII label is valid if and only if it has 1 to 63 characters, alphanumeric but for hyphens inside |
| `VHostRouter.AsciiNameIff` | source/stryvo/src/proxy/vhost/router.rs:545-565 | an ASCII name is valid if and only if it has 1 to 253 characters and valid labels |
| `VHostRouter.ValidateDomainConfig` | source/stryvo/src/proxy/vhost/router.rs:526-542 | a configuration passes if and only if every name is valid for its kind |
| `VHostRouter.IsWildcardMatch` | source/stryvo/src/proxy/vhost/router.rs:344-362 | a valid wildcard pattern whose labels the matcher accepts |
| `VHostRouter.CreateUpstream` | source/stryvo/src/proxy/vhost/router.rs:76-120 | a load balancer if and only if there are several backends and some address parses; it has exactly the addresses that parse, each with the first backend that has it |
| `VHostRouter.Router.constructor` | source/stryvo/src/proxy/vhost/router.rs:37-73 | every name gets its upstream, and a load balancer with all its backends if and only if it needs one |
| `VHostRouter.Router.RouteRequest` | source/stryvo/src/proxy/vhost/router.rs:181-233 | the exact name decides first, then some matching pattern, then the name without its first label if that has several labels; the default decides if and only if the host is empty or none of these is configured |
| `VHostRouter.ParentIff` | source/stryvo/src/proxy/vhost/router.rs:211-226 | the parent is the host without its first label and dot, if that has a dot itself |
| `VHostRouter.OwnWildcardMatches` | source/stryvo/src/proxy/vhost/router.rs:200-218 | a configured `*.rest` already matches as a pattern |
| `VHostRouter.OwnWildcardLookupIsRedundant` | source/stryvo/src/proxy/vhost/router.rs:200-218 | with validated names the later `*.rest` lookup never changes the answer |
| `VHostRouter.Router.SelectUpstreamPeer` | source/stryvo/src/proxy/vhost/router.rs:236-338 | the peer is what the balancer under the request's spelling chooses if the routed upstream has several backends and there is a choice, and otherwise the first backend, or an error without one; for a lowercase host it is one of the routed backends |
| `VHostRouter.Router.AnswersAreConsistent` | source/stryvo/src/proxy/vhost/router.rs:236-295 | a load balancer is found under a lowercase host only when the exact name was routed |
| `VHostRouter.Router.ForeignPeerIff` | source/stryvo/src/proxy/vhost/router.rs:236-295 | a peer outside the routed upstream can be picked if and only if that has several backends and the balancer under the request's spelling holds a backend that is none of them; then that spelling is configured and not lowercase |
| `CertificateNames.NameCoversIff` | source/stryvo/src/acme/certificate.rs:128-152 | one name covers a domain if and only if it equals it or is `*.` and the domain without its non-empty first label |
| `CertificateNames.CoversDomainIff` | source/stryvo/src/acme/certificate.rs:128-152 | a certificate covers a domain if and only if one of its names does (section 6.4.3 of RFC 6125) |
| `CertificateNames.WildcardInLabels` | source/stryvo/src/acme/certificate.rs:135-148 | the same in labels |
| `CertificateNames.CoveredHostsAreRouted` | source/stryvo/src/proxy/vhost/router.rs:344-362 | a covering wildcard name that is a valid pattern matches the domain in the router |
| `CertificateNames.CoveredIffRoutedAtTheSameDepth` | source/stryvo/src/proxy/vhost/router.rs:344-362 | a routed host is covered by the name if and only if it has as many labels, the first not empty and the others equal in case too; covered hosts are routed |
| `CertificateNames.DeeperHostsAreRoutedButNotCovered` | source/stryvo/src/proxy/vhost/router.rs:344-362 | one label deeper the router still matches and the certificate no longer covers |
| `AcmeOrder.HttpChallengeServer.AddChallenge` | source/stryvo/src/acme/challenge.rs:50-54 | the token is served with its key authorization |
| `AcmeOrder.HttpChallengeServer.RemoveChallenge` | source/stryvo/src/acme/challenge.rs:57-61 | the token is gone and nothing else |
| `AcmeOrder.SubmitChallenges` | source/stryvo/src/acme/manager.rs:576-652 | every offered token not handled before is stored, submitted in order while served, accepted by the server and removed again; exactly which refusal, failed refresh or configuration makes which early error, and what that leaves behind |
| `AcmeOrder.Iterate` | source/stryvo/src/acme/manager.rs:560-665 | one iteration keeps the protocol, and ends the order exactly when and as the server's answers demand |
| `AcmeOrder.AwaitValidations` | source/stryvo/src/acme/manager.rs:552-673 | at most 121 iterations and 1,770,000 ms of sleep, each token submitted at most once and only when offered, every outcome exactly by the server answer that makes it, none of its tokens left on success; a server that refuses nothing and first confirms in iteration n of at most 121 confirms the order in n |
| `AcmeOrder.EndsInRound` | source/stryvo/src/acme/manager.rs:576-652 | how the requests of one iteration decide the outcome of the order |
| `AcmeOrder.IsConfirmed` | source/stryvo/src/acme/manager.rs:552-673 | with a server that refuses nothing the order is confirmed in the first iteration in which the server confirms it |
| `AcmeOrder.BackoffSettles` | source/stryvo/src/acme/manager.rs:654-665 | the backoff reaches 15 seconds with the fifth wait and stays there |
| `AcmeOrder.TotalBackoff` | source/stryvo/src/acme/manager.rs:654-665 | the sum of the waits in closed form |
| `AcmeOrder.WaitingIsBounded` | source/stryvo/src/acme/manager.rs:654-672 | 121 waits take exactly 1,770,000 ms and fewer take no more |
| `AcmeManager.DueByDate` | source/stryvo/src/acme/certificate.rs:155-158 | a certificate is due exactly from `renewalDays` times 24 hours before its end on, or when it is not valid |
| `AcmeManager.AcmeManager.LoadExistingCertificates` | source/stryvo/src/acme/manager.rs:228-264 | what is loaded stands under its primary domain and comes from the directory, what was there stays unless replaced, and exactly the unreadable file pairs are deleted |
| `AcmeManager.AcmeManager.AddPendingDomains` | source/stryvo/src/acme/manager.rs:93-97 | the domains join the end of the pending list |
| `AcmeManager.AcmeManager.GetCertificate` | source/stryvo/src/acme/manager.rs:130-194 | what is handed out without a change covers the domain, is valid and ends later than `renewalDays` times 24 hours from now; if no certificate is like that, one is obtained, put in and announced, as a renewal if and only if some certificate covers the domain, or it fails without a change |
| `AcmeManager.AcmeManager.AcquireApart` | source/stryvo/src/acme/manager.rs:347-365 | the temporary manager's result is the obtained certificate or a covering one from disk that is not due |
| `AcmeManager.AcmeManager.AcquirePending` | source/stryvo/src/acme/manager.rs:308-389 | the pending list is drained; only pending domains change, none whose certificate is valid and ends later than the window, and every one whose attempt went well has a certificate |
| `AcmeManager.AcmeManager.RenewDue` | source/stryvo/src/acme/manager.rs:391-438 | each certificate within the window or not valid is tried exactly once, and no other; the changes are those of the attempts that go well, each announced as a renewal |
| `AcmeManager.AcmeManager.DailyPass` | source/stryvo/src/acme/manager.rs:291-442 | every certificate within the window or not valid is tried or pending, every other one stays as it is, every change is announced in order, and each attempt that goes well takes effect, whatever becomes of the others |
| `AcmeManager.AcmeManager.RunStartupAcquisition` | source/stryvo/src/acme/manager.rs:449-510 | only pending domains without a certificate of their own change, and each one whose order succeeds has a certificate afterwards or is covered by one that is not due |
| `AcmeManager.AppliedConcat` | source/stryvo/src/acme/manager.rs:173-191 | passes compose: the changes and events of two are those of their concatenation |
| `AcmeManager.DailyPassSparesValid` | source/stryvo/src/acme/manager.rs:291-442 | both halves together replace no certificate that was not due at first |
| `AcmeManager.RenewalTakesEffect` | source/stryvo/src/acme/manager.rs:391-438 | an attempt that goes well is a change of the pass whatever the other attempts do |
| `AcmeManager.AcquisitionServes` | source/stryvo/src/acme/manager.rs:449-510 | an acquisition takes no certificate away, changes no other domain, and serves its domain if the order succeeds |
| `CertificateManager.CertificateManager.constructor` | source/stryvo/src/proxy/vhost/certificate_manager.rs:102-151 | exactly the configurations that load are installed, from the present files, with their intermediates unless they are bootstrap certificates |
| `CertificateManager.CertificateManager.ReloadDomainCertificateWithPaths` | source/stryvo/src/proxy/vhost/certificate_manager.rs:199-269 | the three maps change together or not at all, and the old intermediates never outlive the chain they came from; the intermediates are the chain without its leaf |
| `CertificateManager.CertificateManager.HandleEvent` | source/stryvo/src/proxy/vhost/service.rs:190-236 | a configured domain whose files load gets the acceptor of their present generation; otherwise nothing changes |
| `CertificateManager.CertificateManager.Listen` | source/stryvo/src/proxy/vhost/service.rs:190-257 | the listener over any events, losses and failures |
| `CertificateManager.CertificateManager.InstallExisting` | source/stryvo/src/proxy/vhost/service.rs:153-175 | every loaded certificate of a configured domain is installed, and nothing else |
| `CertificateEvents.InstallAndSubscribe` | source/stryvo/src/proxy/vhost/service.rs:153-179 | after the eager installation both sides agree on every configured domain whose certificate loads, and all acceptors are made from the files as they are |
| `CertificateEvents.ReplayOfOneDomain` | source/stryvo/src/proxy/vhost/service.rs:190-257 | what replaying makes of a domain is the acceptor of its own last event, and without one its acceptor stays as it is |
| `CertificateEvents.EveryRunStaysInStep` | source/stryvo/src/acme/manager.rs:365-430 | in every run with any losses, failed reloads and shared files, replaying the queue gives a configured domain the manager's paths, unless its last event was missed and no later one is queued |
| `CertificateEvents.AgreesIff` | source/stryvo/src/acme/manager.rs:365-430 | in every such run the two sides agree on paths and generation, up to the queue, if and only if an event of the domain is queued, or its acceptor has the right paths and these files were not rewritten since it was made |
| `CertificateEvents.ManagersAgree` | source/stryvo/src/acme/manager.rs:173-191 | with every event delivered the paths agree up to the queue at every moment, and the generations exactly unless another domain has rewritten the domain's files since its last event was taken and no event of the domain is queued |
| `CertificateEvents.MissedEventStays` | source/stryvo/src/proxy/vhost/service.rs:237-256 | after a missed event the acceptor stays as it was until the domain is announced again, whatever other domains do, and agrees if and only if it was already made from the present generation of those files |
| `CertificateEvents.SharedFilesGoStale` | source/stryvo/src/acme/manager.rs:701-702 | the input on which generations come apart: two domains share their files and one is renewed |
| `CertificateEvents.PassIsSteps` | source/stryvo/src/acme/manager.rs:365-430 | a pass, as the manager's methods describe it, is a sequence of steps of these runs |
| `CertificateEvents.ListeningIsSteps` | source/stryvo/src/proxy/vhost/service.rs:190-257 | so is a stretch of the listener |
| `BodyCollection.SameKeyIff` | source/stryvo/src/proxy/cache/service.rs:123-136 | two requests share a cache key if and only if their hosts up to the first colon agree but for ASCII case, and so do method and target |
| `BodyCollection.StryvoProxyService.ProcessCacheLookup` | source/stryvo/src/proxy/pipeline.rs:28-144 | each field after the three lookup results, and that only a hit ends the request |
| `BodyCollection.StryvoProxyService.ProcessCacheStatus` | source/stryvo/src/proxy/pipeline.rs:214-267 | which responses are kept for the cache, and the status that is shown |
| `BodyCollection.StryvoProxyService.UpstreamResponseBodyFilter` | source/stryvo/src/proxy/mod.rs:536-642 | what one chunk adds, that only the end of a collected body puts something, at most once, and resets the context, and what goes on to the client |
| `BodyCollection.CollectingKeepsArrived` | source/stryvo/src/proxy/mod.rs:536-642 | until the end the collected chunks are what has arrived, and afterwards nothing is collected or put again |
| `BodyCollection.OnePutPerResponse` | source/stryvo/src/proxy/mod.rs:536-642 | for any chunking there is at most one put, exactly after a miss, status 200 and a non-empty finished body, under the looked-up request, with the body before compression |
| `BodyCollection.OnlyEncodingIsRemoved` | source/stryvo/src/proxy/mod.rs:600-602 | the stored headers are the upstream's without the content encoding |
| `BodyCollection.PutsCarryNoEncoding` | source/stryvo/src/proxy/cache/service.rs:381-385 | so a stored entry records no original encoding, and `no-store` is judged by the upstream's own header |
| `LogWriter.WriterTask` | source/stryvo/src/logging.rs:88-176 | file and buffer together are the messages in order with one newline each, the file ends at a message, the buffer is at most 32 KiB and 100 ms old, and after a shutdown the file alone is everything |
| `LogWriter.RenderedStopsAtShutdown` | source/stryvo/src/logging.rs:116-128 | nothing after a shutdown is written |
| `LogWriter.LinesAreMessages` | source/stryvo/src/logging.rs:88-176 | reading the lines of the file back gives the messages before the shutdown, if none has a newline in it |

## Left out

- Rate limiting: its arithmetic lives in libraries that are not part of this model.
- Codecs, TLS handshakes, X.509 parsing and the ACME client: uninterpreted functions or arbitrary answers.
- Configuration parsing, command line, listener setup, header rewriting, CIDR and regex filters, the file server, log formatting and service wiring: they would only add easy members.
- The virtual-host copy of the body filter: it keeps the response header for any status, so `OnePutPerResponse` is about `StryvoProxyService` only.
- The construction of a response from a cache hit (header filtering, client compression, content length).
- States inside one write or one rename of a file; a crash leaves a temporary file that was being written with arbitrary content, while a write that fails leaves no trace.
- Two overlapping writes of one temporary file: each write is one step.
- Several clock readings inside one whole operation of `SccMemoryCache`; the interleaving model reads the clock at each step.
- Lives that are followed by another and leave a metadata file that is not up to date, for instance by a crash between an insertion and the `store` after it: `CacheRestart` does not refine those; the interleaving model covers crashes at any moment.
- Unicode's tables: in the router they are arbitrary functions. Header values that are no text, which the original treats like absent ones.
- Order and fairness among overlapping wildcard patterns, among entries of equal creation time, and among backends of a load balancer.
- The time between listing the loaded certificates and subscribing to the channel, and between an insertion and its event: each pair is one step.
- `initialize` and the retry of a whole request by the proxy framework.
