# Blobcache: a verified model

Blobcache is a peer-to-peer read cache for blob storage. Nodes keep fixed-size chunks of immutable
blobs on local disk, find each other by gossip, advertise what they hold in bloom filters, fetch
missing chunks from each other or from the blob store, and serve files through FUSE. This project
models the state machines at the core of that daemon in Dafny and proves what they keep, mostly over
every run: protocols are total step functions, `Run` folds them over an arbitrary sequence of actions,
and the theorems quantify over that sequence. Objects the source updates in place are classes whose
methods are proved against specification functions. `dafny verify dfyconfig.toml` checks everything.

| file | component |
|---|---|
| Core.dfy, Words.dfy | results, byte strings, chunk keys; integers as bytes and bits |
| Bloom.dfy | the bloom filter and its published form |
| Advertisement.dfy | inserts and rebuilds of the advertised filter running concurrently |
| PeerIndex.dfy | rendezvous leader, ranking of peers, one fetch through peers and origin |
| Membership.dfy | gossip merge, self-refutation, push-pull exchange |
| Recency.dfy, DiskCache.dfy | the abstract LRU list; the disk cache and the peer LRU that refine it |
| CacheRaces.dfy | inserts, removals and clears of the disk cache running concurrently |
| Singleflight.dfy | leaders, followers, the cancel guard, and clears |
| ReadPath.dfy | splitting a byte range into chunk pieces and joining the answers |
| ClusterReads.dfy | reads on every node of a cluster whose stores feed each other |
| Progress.dfy | which reads of such a cluster can still succeed |
| Wire.dfy | the request and response frames |
| Endpoints.dfy | the reference-counted endpoint table |
| Hydrate.dfy, Paths.dfy, Ring.dfy | planning, broadcast, blob naming, ring all-gather |
| Inodes.dfy, Listings.dfy | the FUSE inode table; listings and lookups over it |

## Where the source does not keep a property

Each of these is proved as an exact condition, with the failing run or input constructed.

- Two overlapping filter rebuilds hide a cached chunk from the peers. The periodic rebuild never overlaps
  with itself, but the rebuild at the end of `clear_local_state` can overlap with it
  (`VisibleIffRebuildsAreSerial`).
- A filter version names its bytes only while it is below `u64::MAX` (`VersionsIdentifyBytes`).
- A claim of incarnation `u64::MAX` cannot be refuted, unless it says Alive and this node is there already;
  the increment is modelled as wrapping, as in a release build. Over any run the incarnation never falls and
  every claim is answered if and only if no claim in it forces the increment to wrap
  (`RefutationIsExact`, `SelfRefutation`).
- Which record a merge keeps for a member depends on the order of the batch exactly when different records
  tie for the newest and the table's own record is not among them (`OrderMattersOnTies`).
- Nodes agree on a leader exactly when the top score is unique: every tied node elects itself
  (`LeaderAgreement`).
- `clear_local_state` removes singleflight slots under their leaders and zeroes the gauge; from then on a key
  may have two leaders and the gauge may be wrong. A clear does harm exactly when a slot is held, or the gauge
  counts something, at that moment (`ExactUntilBroken`). Followers are still never stranded.
- Not every read can be rescued by a store that answers: a follower shares the failure of its leader. Which
  reads can still succeed is characterised in every reachable state (`CanSucceedIffHopeful`); a clear of its
  slot can bring back a follower that its leader would fail.
- The test that every truncated request is rejected (src/transport_ucx.rs:1820-1829) fails for every request
  when the cut is right after the mandatory fields, which is a legacy frame; all decodable truncations are
  characterised (`TruncationExact`). The encoder does not check the request-id alphabet, the decoder does
  (`RoundTrip`).
- A request that replaces an idle endpoint of another address and then fails to create the new one drops
  the old endpoint without closing it (`ClosedIffCreationNeverFails`).
- A mount prefix with a leading slash makes the fetcher ask for a blob that was not listed
  (`ReadsReachTheListedBlob`); hydrate and FUSE use the same key only for plain prefixes
  (`HydrateWarmsTheMount`).
- Hydrate lists by string prefix, joined from that of the mount and the path of the request. It stays inside
  the mount exactly when the mount prefix is empty, or has no leading slash (or nothing but slashes) and either
  a path is given or the prefix ends in a slash (`HydrateStaysInMount`).
- Hydrate gives two blobs one key exactly when their names differ only in slashes after the mount prefix, or
  one lacks the prefix and is what the other is after prefix and slashes (`SameKeyIff`). A request keeps all its
  blobs apart exactly when the mount has no prefix or its path names something, slashes aside
  (`RequestTellsApart`); so a hydrate of the whole mount can confuse blobs under every non-empty prefix, plain
  ones included (`EveryPrefixCollides`, with `HydrateConfusesNeighbours` as an instance).
- The blob hydrate then asks the store for is the one it listed exactly when one slash follows the prefix
  (`HydrateFetchesListed`), and for all blobs of a request exactly under the condition on prefix and path of
  `RequestFetchesListed`.
- An insert of the disk cache renames its file into place before it takes the lock. A tracked chunk can lose
  its file exactly through the calls named by `Risky`: an insert of a chunk that is tracked or being inserted
  already, a removal or a sweep of one that is being inserted, a sweep of a tracked one (`IntactUntilRisky`).
- A ring step that does not wait for background writes can fall back to the blob store exactly when some chunk
  has to be passed on (`DrainIsNeeded`).
- A directory over the child cap shows less than its listing (`MergeListing`). A directory that a listing has
  dropped disagrees with the index in every later history exactly when it had an indexed name at that moment;
  if it had none, it agrees in every later history (`DroppedForGood`).
- Past 33 failures the coordinator and the receiver report different numbers of lost chunks
  (`HonestAnswerChecked`).

## Model

| member | source | states |
|---|---|---|
| `BloomFilter.BitPos` | src/peerindex.rs:80-85 | every probe, in wrapping 64-bit arithmetic, lies inside the filter |
| `BloomFilter.ProbeIs` | src/peerindex.rs:80-85 | the probes in plain arithmetic: first half plus i times second half of the digest's first 16 bytes, modulo 2^64, modulo the bits |
| `BloomFilter.FourProbes` | src/peerindex.rs:57-72 | an insert sets exactly the four probes of its digest, a test asks for exactly those |
| `BloomFilter.InsertedToBits` | src/peerindex.rs:57-62 | an insert sets exactly the probe bits of its digest and no other |
| `BloomFilter.InsertContains` | src/peerindex.rs:57-72 | an inserted digest tests positive; nothing that tested positive is lost |
| `BloomFilter.InsertedAllContains` | src/peerindex.rs:170-195 | a filter built from a list contains all of the list and all it started from |
| `BloomFilter.InsertedAllBits` | src/peerindex.rs:170-195 | a filter built from a list has no bits but those it started with and the probes of the list |
| `BloomFilter.EmptyContainsNothing` | src/peerindex.rs:19-26 | a new filter answers no to every digest |
| `BloomFilter.ParseSerialise` | src/peerindex.rs:28-55 | parsing published bytes gives back exactly the published filter |
| `BloomFilter.SerialiseParse` | src/peerindex.rs:28-55 | whatever is accepted is well formed and is the serialisation of nothing else |
| `BloomFilter.SerialiseLayout` | src/peerindex.rs:48-55 | the published bytes hold the number of bits and then the words in order, little-endian |
| `Words.LeSplit` | src/peerindex.rs:32-43 | little-endian values: the value of a concatenation, which fixes every value |
| `Words.BeSplit` | src/transport_ucx.rs:1148-1159 | the same for big-endian values |
| `Words.TestBitIs` | src/peerindex.rs:64-72 | bit i of a word is its binary digit of 2^i |
| `BloomFilter.Bloom.FromBytes` | src/peerindex.rs:28-46 | accepts exactly a number of bits of at least 64 followed by as many words as it needs, and holds what they mean |
| `BloomFilter.Bloom.ToBytes` | src/peerindex.rs:48-55 | produces the serialisation of the current filter |
| `BloomFilter.Bloom.Insert` | src/peerindex.rs:57-62 | the loop of bit sets is the insertion specified on values |
| `BloomFilter.Bloom.Test` | src/peerindex.rs:64-72 | the early-exit loop answers membership of all probe bits |
| `Advertisement.NeverHidden` | src/peerindex.rs:154-195 | in every interleaving with at most one rebuild, every cached chunk tests positive unless an insert of it is still on its way to the filter |
| `Advertisement.RebuildForgets` | src/peerindex.rs:170-195 | a rebuild that runs through leaves exactly the probes of the cached chunks and of the overlay, and an empty overlay |
| `Advertisement.OverlappingRebuildsHide` | src/fetcher.rs:1052-1065 | the run of two overlapping rebuilds after which a cached chunk tests negative with no insert pending |
| `Advertisement.VisibleIffRebuildsAreSerial` | src/peerindex.rs:154-195 | chunks stay visible in all runs if and only if at most one rebuild is in progress at a time |
| `Advertisement.VersionNamesFilter` | src/peerindex.rs:154-195 | over any run the version never falls, and while it stands still below the limit the filter does too |
| `Advertisement.SaturatedVersionIsAmbiguous` | src/peerindex.rs:154-168 | at the largest version two snapshots can carry different bytes |
| `Advertisement.VersionsIdentifyBytes` | src/peerindex.rs:154-207 | snapshots of one version agree in all runs if and only if the version is below the limit |
| `Advertisement.RemoteAnswersAsOwner` | src/peerindex.rs:204-218 | a peer's copy taken at a version answers every digest as the owner does whenever it is at that version |
| `Routing.TopIsHighest` | src/peerindex.rs:233-245 | the elected node is in the electorate and nobody scores higher |
| `Routing.TopPrefersSelf` | src/peerindex.rs:233-245 | a node that ties for the top elects itself |
| `Routing.LeaderAgreement` | src/peerindex.rs:233-245 | all nodes elect the same leader, whatever their list order, if and only if that leader alone holds the top score |
| `Routing.LeaderIsStable` | src/peerindex.rs:233-245 | removing a non-leader never moves a key; adding a node moves it only to that node |
| `Routing.LeaderOfTable` | src/peerindex.rs:233-245 | elected over the listed members, the leader is that of the set of live members of the table, so equal tables elect alike |
| `Routing.ByScoreSorts` | src/peerindex.rs:247-277 | the ranking is descending by score and a permutation of the live peers |
| `Routing.CandidatesAreBest` | src/peerindex.rs:247-277 | a candidate list is within budget, best first, takes each peer as often as it is alive and only those whose filter claims the chunk (or is unknown), and passes a peer over only for a full list of others that score at least as high |
| `Routing.OfKindCounts` | src/peerindex.rs:259-276 | each peer of a kind is taken exactly as often as it is listed |
| `Routing.PeerIndex.constructor` | src/peerindex.rs:133-146 | starts at version 1 with an empty filter and overlay and no remote filters |
| `Routing.PeerIndex.NoteLocalInsert` | src/peerindex.rs:154-168 | overlay first, then filter and version, as the atomic steps of the concurrent model |
| `Routing.PeerIndex.RebuildLocalFromCache` | src/peerindex.rs:170-195 | swaps in the filter of the live keys and the overlay, and empties the overlay |
| `Routing.PeerIndex.LocalSnapshot` | src/peerindex.rs:204-207 | version and bytes belong together |
| `Routing.PeerIndex.IngestRemote` | src/peerindex.rs:209-218 | replaces a peer's filter exactly if the bytes parse, otherwise changes nothing |
| `Routing.PeerIndex.HrwTopId` | src/peerindex.rs:233-245 | the maximum loop elects the node the agreement theorem is about |
| `Routing.PeerIndex.RankCandidates` | src/peerindex.rs:247-277 | the loop with two budgets returns the two candidate lists of the specification |
| `Routing.PeerIndex.AskCandidates` | src/fetcher.rs:577-592 | asks the candidates in order, uses the first reply that is data of the expected length, stops there, and forgets the filters of exactly the peers that denied their claim |
| `Routing.PeerIndex.AskPeers` | src/fetcher.rs:561-627 | the candidates in order; then the cluster-wide leader, exactly when no candidate had the chunk, no live peer's filter claims it or none may be asked for that, stampede protection is on and another node scores higher than this one |
| `Routing.LeaderAskedIff` | src/fetcher.rs:594-627 | the list of claims is empty exactly when no live peer's filter claims the chunk or its budget is 0; another node leads exactly when one scores higher |
| `Routing.PeerIndex.DoFetch` | src/fetcher.rs:550-659 | for arbitrary replies: the first good reply of the peers asked in order, or else what the origin gives if its length is right; no peer is asked when they are bypassed; at most max_yes + max_maybe + 1 requests |
| `Routing.BudgetBound` | src/fetcher.rs:561-627 | the number of peers one fetch may ask is bounded by the two budgets plus one |
| `Cluster.Membership.constructor` | src/cluster.rs:75-92 | a new table holds this node alone, at its incarnation or 1 |
| `Cluster.Membership.Merge` | src/cluster.rs:142-214 | the in-place loop is the fold of the specification |
| `Cluster.Membership.TouchPeer` | src/cluster.rs:216-226 | hearing from a peer refreshes it and nothing else |
| `Cluster.Membership.Sweep` | src/cluster.rs:228-260 | states follow age, and the hook fires for exactly the members that just became Dead |
| `Cluster.Membership.MembersAlive` | src/cluster.rs:121-132 | in a table of this cluster, the loop lists exactly the other members that are Alive, each once, with the table's record |
| `Cluster.MergeKeepsNewest` | src/cluster.rs:168-205 | per foreign id the table ends with one of the offered records of this cluster, to which all of them give way: by incarnation, then last_seen, then Dead over Suspect over Alive |
| `Cluster.GivesWayIff` | src/cluster.rs:184-199 | the precedence of the merge is that lexicographic order, field by field |
| `Cluster.MergeOrderIrrelevant` | src/cluster.rs:168-205 | order and repetition of the records do not change the winning (incarnation, last_seen, rank) |
| `Cluster.MergeInBatches` | src/cluster.rs:142-214 | merging in batches equals merging at once |
| `Cluster.OrderMattersOnTies` | src/cluster.rs:184-205 | for any batch and member: all reorderings keep the same record if and only if the table's own record is among the newest or the newest on offer are one record |
| `Cluster.ReceiveTable` | src/cluster.rs:326-338 | receiving a whole table leaves the newer record of every third member |
| `Cluster.ExchangeAgrees` | src/cluster.rs:406-434 | after one push-pull both ends agree on the triple of every third member, unless the caller learnt something newer meanwhile, and then exactly |
| `Cluster.ReceiveHearsSender` | src/cluster.rs:326-338 | after an exchange each side knows the other as Alive, seen now, with an incarnation no older than its own |
| `Cluster.ReceivePure` | src/cluster.rs:326-338 | an exchange lets no record of another cluster in |
| `Cluster.MergePure` | src/cluster.rs:168-171 | a merge lets no record of another cluster in |
| `Cluster.TableStaysPure` | src/cluster.rs:142-260 | over any run of merges, touches and sweeps no foreign-hash record is in the table |
| `Cluster.AliveAfterSweep` | src/cluster.rs:121-260 | right after a sweep, in any run, the listed members are exactly the others heard from within the heartbeat timeout: no suspect, no dead, not this node |
| `Cluster.SweepStates` | src/cluster.rs:228-260 | a sweep makes every other member Alive, Suspect or Dead by the seconds since last_seen, up to 30, up to 60 and beyond, and changes nothing else |
| `Cluster.TouchedIsListed` | src/cluster.rs:216-226 | a member heard from is listed, as seen then, by every sweep of the next 30 seconds |
| `Cluster.RefutationIsExact` | src/cluster.rs:149-160 | one claim is answered without lowering the incarnation if and only if it does not force the increment to wrap; then by the incarnation right above it, or by the present one if that answers it |
| `Cluster.SteadyIffNeverWraps` | src/cluster.rs:149-160 | for any sequence of claims: the incarnation never falls on the way and answers each claim so far, if and only if none of them forces a wrap |
| `Cluster.MergeRefutes` | src/cluster.rs:142-166 | a merge of any records answers the claims about this node in order; its own entry then carries the incarnation reached, seen now and Alive, or is untouched if there were none |
| `Cluster.SelfRefutation` | src/cluster.rs:142-253 | over every run of merges, touches and sweeps the own entry stays Alive, and the incarnation never falls and answers every claim if and only if no claim forces a wrap |
| `Recency.EvictedIsLongestSuffix` | src/cache.rs:386-401 | eviction keeps the longest recent part that fits the cap |
| `Recency.PutSurvivors` | src/cache.rs:341-401 | after an insert an entry survives if and only if it and everything more recent fit together |
| `Recency.NewEntryKeptIffItFits` | src/cache.rs:341-401 | an insert evicts its own entry if and only if that alone exceeds the cap |
| `Recency.RunBounded` | src/cache.rs:322-413 | over any run of inserts, hits and removals the cap holds and no key is listed twice |
| `Recency.LargerCacheIncludesSmaller` | src/cache.rs:322-401 | under any read sequence a larger cache always holds everything a smaller one holds |
| `Caches.RefinesUntrack` | src/cache.rs:403-413 | dropping a key from the two maps drops it from the list, and the byte count falls by its size |
| `Caches.RefinesTrack` | src/cache.rs:341-384 | a new access number appends the key to the list and adds its size |
| `Caches.OldestIsHead` | src/cache.rs:386-401 | the least access number belongs to the least recent entry |
| `Caches.DiskCache.constructor` | src/cache.rs:77-94 | a new cache is empty |
| `Caches.DiskCache.EvictIfNeeded` | src/cache.rs:386-401 | the loop over access numbers is the eviction of the list; the cap holds afterwards, and exactly the files of the evicted entries are deleted |
| `Caches.DiskCache.Insert` | src/cache.rs:341-384 | an insert is the list's insert and leaves the bytes within the cap; the new entry's file is the data, evicted files are gone, all others are unchanged, and every entry still has its file |
| `Caches.DiskCache.TouchLru` | src/cache.rs:322-339 | a hit moves exactly that entry to the recent end |
| `Caches.DiskCache.TryGet` | src/cache.rs:140-166 | returns the file of a tracked key, and counts as a use only then |
| `Caches.DiskCache.TryGetRange` | src/cache.rs:172-216 | returns exactly the asked bytes, or nothing exactly when entry or file cannot cover them |
| `Caches.DiskCache.Remove` | src/cache.rs:403-413 | forgets the key and deletes its file |
| `Caches.DiskCache.DropMissing` | src/cache.rs:303-319 | drops the missing keys that are still tracked and reports the exact number and bytes |
| `Caches.DiskCache.ReconcileWithDisk` | src/cache.rs:288-320 | afterwards exactly the entries whose file exists remain, in the same order |
| `Caches.DiskCache.ClearAll` | src/cache.rs:422-453 | nothing is left, and the returned counts are those of the tracked files that were there |
| `CacheRaces.StepSafe` | src/cache.rs:341-453 | every call that is not risky keeps: tracked chunks have their files unless being removed, and an insert that will stay is the only one of its chunk, not tracked yet, with its file in place |
| `CacheRaces.IntactIffPrudent` | src/cache.rs:341-453 | from any such state a call leaves tracked chunks with their files in all further runs without risky calls, if and only if it is not risky itself |
| `CacheRaces.IntactUntilRisky` | src/cache.rs:341-453 | a cache that starts empty keeps the file of every tracked chunk up to its first risky call, in every interleaving, and not after it |
| `Caches.PeerLru.Get` | src/fetcher.rs:47-49 | a hit returns the stored bytes and makes the entry most recent |
| `Caches.PeerLru.Put` | src/fetcher.rs:51-66 | an oversized value changes nothing; an accepted one is kept and the byte count stays exact and within the cap |
| `Caches.PeerLru.Clear` | src/fetcher.rs:68-71 | empties list and count |
| `Singleflight.StepInv` | src/fetcher.rs:112-143 | what every step of leaders, guards, followers and clears keeps |
| `Singleflight.NeverStranded` | src/fetcher.rs:480-548 | in every run, cancellations and clears included, a waiting follower is owed a message by a live task, and once no leader is left it has something to receive |
| `Singleflight.SettledForGood` | src/fetcher.rs:479-491 | a channel carries one message at most |
| `Singleflight.StepKeepsValues` | src/fetcher.rs:500-548 | if leaders produce good values for their key, followers receive good values for theirs, even after a clear |
| `Singleflight.ClearAllowsTwoLeaders` | src/fetcher.rs:1052-1058 | the run in which a clear lets a second leader start |
| `Singleflight.ExactIffNeverCleared` | src/fetcher.rs:112-143 | one leader per key, a slot exactly while it is led, and an exact gauge in all runs, if and only if nothing is cleared |
| `Singleflight.ExactIffNotBroken` | src/fetcher.rs:1052-1058 | a step from an exact state leaves it exact if and only if it is not a clear of a held slot or of a gauge that counts something |
| `Singleflight.ExactUntilBroken` | src/fetcher.rs:1052-1058 | a run is exact up to its first harmful clear, and not after it |
| `ReadPath.Split` | src/fetcher.rs:1085-1124 | the pieces of a range lie end to end and each lies in one chunk of the file as enumerated everywhere, without underflow |
| `ReadPath.Join` | src/fetcher.rs:1125-1142 | the joined answer is the byte range of the blob, and fails exactly if a piece does |
| `ReadPath.FetchRange` | src/fetcher.rs:1067-1142 | a successful read of length > 0 at an offset inside the file is the blob's bytes from the offset on, as many as asked for or as the file has left; it is empty exactly for length 0 or an offset at or past the end; refused only when too long or when a piece fails |
| `ClusterReads.StepInv` | src/fetcher.rs:330-909 | every step of every node keeps all bytes in staging, LRU, disk, writers, channels and results equal to the blob's |
| `ClusterReads.RunInv` | src/fetcher.rs:330-909 | the same over every run of the cluster |
| `ClusterReads.ReadsAreTransparent` | src/fetcher.rs:330-406 | in every cluster run a slice read that succeeds returns exactly those bytes of the blob, whoever served it |
| `ClusterReads.ChunksAreTransparent` | src/fetcher.rs:422-548 | so does every whole-chunk read, everything served to a peer, and everything a hydrate pulls from one |
| `ClusterReads.PullStep` | src/fetcher.rs:944-1022 | the answer of the peer a hydrate asked keeps every store right: data of the expected length is kept, a miss goes on to the origin, anything else fails |
| `ClusterReads.ReadFile` | src/fetcher.rs:1067-1142 | the same of a file read whose pieces were answered by any reads of any runs of the cluster |
| `ClusterReads.CoveredIffHandedOff` | src/fetcher.rs:875-909 | a chunk stays readable from staging or disk in all runs that do not take it away, if and only if it is there now and no writer is about to unstage it unstored |
| `ClusterReads.NoRefetch` | src/fetcher.rs:349-466 | while a chunk is handed over no read of it reaches singleflight, peers or origin; unless it is cancelled it ends only with a success, one lookup closer for each lookup it makes |
| `ClusterReads.LocalHit` | src/fetcher.rs:349-466 | in any such run of the cluster that gives it three lookups and does not cancel it, the read has ended, successfully and with the right bytes |
| `ClusterReads.LookupsHitIff` | src/fetcher.rs:349-466 | the lookups of a new read of something that exists end it, with the right bytes, if and only if one of the stores it may use has the chunk; otherwise they send it on to singleflight, peer or refusal |
| `ClusterReads.ClearedIsCold` | src/fetcher.rs:1052-1065 | after a clear of the stores, or evictions from disk and LRU of a chunk not staged, a new read finds nothing on the node |
| `ClusterReads.WrongLengthRemoved` | src/fetcher.rs:440-478 | a whole-chunk read that expects another length takes the chunk off the disk and goes on |
| `ClusterReads.FetchFeedsStores` | src/fetcher.rs:642-734 | a chunk is obtained from outside only by an answer of origin or peer, and then is staged with a writer for the disk, or in the LRU |
| `ClusterReads.StagingDrains` | src/fetcher.rs:875-909 | in every reachable state every staged chunk has a background writer; with no writer left nothing is staged |
| `ClusterReads.CandidatesInTurn` | src/fetcher.rs:561-659 | a leader asks its candidates in order, all of them, before the store; a read that bypasses the peers goes there at once |
| `Progress.StepFits` | src/fetcher.rs:422-548 | every step keeps reads and flights together: each task of a flight is a read of its node, leading, waiting or done as that read's own stage says, each read is at a lookup its mode has, and only reads that may ask peers do |
| `Progress.FinishLeader` | src/fetcher.rs:528-548 | from any reachable state every leader has a continuation that ends it, frees its slot, tells its followers and starts the writer of a fetched chunk, disturbing no other read |
| `Progress.Populate` | src/fetcher.rs:875-909 | from any reachable state any chunk can be brought onto the disk of any node, touching no read but leaders |
| `Progress.HopefulSucceeds` | src/fetcher.rs:422-548 | a hopeful read has a continuation in which the store answers, nothing is cancelled, evicted or cleared, and it succeeds |
| `Progress.RunHopeless` | src/fetcher.rs:493-526 | a read that is not hopeful stays so in every run without a clear of a slot; and in every run at all, unless such a clear would send it back to the disk |
| `Progress.CanSucceedIffHopeful` | src/fetcher.rs:422-548 | in every reachable state of every cluster, a read of something that exists can still succeed without a clear if and only if it does not hang on a failed or failing leader or an unknown peer, and then it does, with the right bytes, once the store answers; with clears, if and only if it is that or follows on an open slot and is no peer's request |
| `Progress.PullFallsBack` | src/fetcher.rs:979-1005 | a pull whose peer does not have the chunk can still succeed through the store; any other failure of the peer ends it |
| `Wire.EncodeRequest` | src/transport_ucx.rs:1121-1161 | encodes exactly the requests with mount up to 255, blob and requester up to 65535 and request id up to 128 bytes, to the frame of the grammar |
| `Wire.FramePositions` | src/transport_ucx.rs:1121-1161 | where every field of an encoded request lies, byte by byte |
| `Wire.DecodeTail` | src/transport_ucx.rs:1183-1205 | decodes the optional fields exactly when the rest is a tail of the grammar |
| `Wire.DecodeMandatory` | src/transport_ucx.rs:1163-1182 | decodes the mandatory fields exactly when they are complete and well formed |
| `Wire.DecodeRequest` | src/transport_ucx.rs:1163-1218 | accepts exactly the frames of some request, and returns that request |
| `Wire.FrameIff` | src/transport_ucx.rs:1163-1218 | the grammar in terms of the positions the decoder computes |
| `Wire.Unambiguous` | src/transport_ucx.rs:1163-1218 | no byte string is a frame of two requests |
| `Wire.RoundTrip` | src/transport_ucx.rs:1121-1218 | decoding undoes encoding if and only if the request id keeps to its alphabet, and fails otherwise |
| `Wire.RidCharsIff` | src/transport_ucx.rs:1195-1197 | the alphabet: digits, letters and the dash |
| `Wire.TruncationExact` | src/transport_ucx.rs:1820-1884 | for every request the encoder accepts, exactly which truncations of its frame still decode, and to what: none inside the mandatory fields, always the one right after them, the whole only if the request id keeps to its alphabet |
| `Wire.EncodeResponse` | src/transport_ucx.rs:1220-1233 | frames exactly the payloads within the limit |
| `Wire.DecodeResponse` | src/transport_ucx.rs:1235-1271 | returns a payload exactly for the frame of a non-empty OK payload that was asked for, a miss exactly for a miss frame |
| `Wire.ResponseParts` | src/transport_ucx.rs:1220-1271 | where status, length and payload of a response lie, both ways |
| `Ring.StepRequests` | src/hydrate.rs:1064-1089 | the requests of a step: each predecessor is asked for the shard it got one step before, nobody twice, nobody for its own |
| `Ring.PassedOn` | src/hydrate.rs:1076-1080 | the shard needed in step k is the predecessor's of step k - 1 |
| `Ring.GatheredBy` | src/hydrate.rs:1064-1089 | what is gathered before step k is what was there and the shards 0 to k - 1 places back, nothing else |
| `Ring.Servable` | src/hydrate.rs:1076-1089 | in every reachable state the predecessor has on disk what it is asked for |
| `Ring.RingGathers` | src/hydrate.rs:1036-1179 | for any world size and any schedule: the disk contents in each step, no fall-back to the blob store, and everything everywhere after world - 1 steps |
| `Ring.RingPullsOnce` | src/hydrate.rs:1247-1366 | each foreign chunk that was missing is pulled exactly once, nothing else at all |
| `Ring.RingProgresses` | src/hydrate.rs:1036-1179 | the ring never gets stuck before it is complete |
| `Ring.RingCompletes` | src/hydrate.rs:1036-1179 | every run with (world - 1) * (2 * chunks + world + 1) actions that change anything has completed the ring |
| `Ring.UndrainedFallsBack` | src/hydrate.rs:1353-1356 | in every ring without the wait for background writes, for every chunk that is passed on there is a run in which the predecessor lacks what it is asked for |
| `Ring.DrainIsNeeded` | src/hydrate.rs:1353-1356 | in every ring, nobody falls back in any run if and only if the steps drain or no chunk is ever passed on |
| `Hydrate.CutBlob` | src/hydrate.rs:344-353 | the chunks of a blob are exactly the aligned ones, in order, end to end over its length |
| `Hydrate.Enumerate` | src/hydrate.rs:330-354 | exactly the chunks of the non-empty listed blobs, each once if no two blobs share a key |
| `Hydrate.KeysApartIff` | src/hydrate.rs:337-343 | the blobs of a listing have different keys if and only if no name is listed twice and no two names are ones that hydrate cannot tell apart |
| `Hydrate.RequestKeepsKeysApart` | src/hydrate.rs:306-343 | whatever the store lists for a request, the keys are apart, if and only if the mount has no prefix or the path of the request names something |
| `Hydrate.Targets` | src/hydrate.rs:377-392 | the coordinator first, then exactly the other live members, each once |
| `Hydrate.Deal` | src/hydrate.rs:393-397 | the buckets partition the chunks, chunk i at place i / n of bucket i % n, with sizes differing by at most one |
| `Hydrate.PlanHydrate` | src/hydrate.rs:330-414 | the plan holds exactly the listed chunks, none twice, evenly |
| `Hydrate.EveryReceiverGetsEverything` | src/hydrate.rs:699-711 | own bucket and broadcast sources together are every chunk, as often as planned |
| `Hydrate.HydrateCovers` | src/fetcher.rs:1085-1101 | the chunk behind every later piece of a listed blob, under hydrate's key, is among what each node holds or pulls |
| `Hydrate.HydrateCoversMount` | src/fetcher.rs:1085-1101 | for plain prefixes and names it is the very chunk, under the very key, that a later FUSE read asks for |
| `Hydrate.PlanIsRing` | src/hydrate.rs:1036-1062 | a plan over blobs with different keys is a well-formed ring, so the ring theorems apply to it |
| `Hydrate.Interleave` | src/hydrate.rs:915-963 | the round-robin loop terminates, pulls each chunk once in its source's order, and in every prefix unexhausted sources differ by at most one |
| `Hydrate.Account` | src/hydrate.rs:964-1003 | fetched, reported and lost add up to assigned; the first 32 failed pulls are reported by number, the rest in one entry; no errors exactly when everything was fetched |
| `Hydrate.FailuresAre` | src/hydrate.rs:968-985 | the reported failures are the failed pulls, in order, each once |
| `Hydrate.Checked` | src/hydrate.rs:747-769 | the coordinator reports nothing exactly when the answer has no errors, no skew and accounts for every chunk, whatever its sender claims; skew comes first, then all the sender reported |
| `Hydrate.HonestAnswerChecked` | src/hydrate.rs:747-769 | what the cross-check adds to an honest answer, and that it stays clean exactly without failures |
| `Hydrate.BroadcastShard` | src/hydrate.rs:915-1003 | schedule and accounting together, for arbitrary results of the pulls |
| `Paths.ReadsReachTheListedBlob` | src/fetcher.rs:629-633 | a read of a listed file asks for that blob if and only if the prefix has no leading slash or is all slashes |
| `Paths.HydrateWarmsTheMount` | src/hydrate.rs:337-343 | hydrate and FUSE use the same key for a blob if and only if the prefix is plain and the rest does not begin with a slash |
| `Paths.HydrateStaysInMount` | src/hydrate.rs:306-329 | for every mount prefix and request path: everything listed lies in the mount if and only if the mount prefix is empty, or has no leading slash (or nothing but slashes) and a path is given or the prefix ends in a slash |
| `Paths.SameKeyIff` | src/hydrate.rs:337-343 | any two names get the same key if and only if they are equal, differ only in slashes after the prefix, or one lacks the prefix and is what the other is after prefix and slashes |
| `Paths.EveryPrefixCollides` | src/hydrate.rs:337-343 | under every non-empty prefix two different names get the same key |
| `Paths.RequestTellsApart` | src/hydrate.rs:306-343 | the key is injective on what a request lists if and only if the mount has no prefix or the path names something |
| `Paths.HydrateFetchesListed` | src/fetcher.rs:629-633 | the blob asked for under hydrate's key is the listed one if and only if the mount has no prefix, or the name has it and exactly one slash follows its part before trailing slashes |
| `Paths.RequestFetchesListed` | src/fetcher.rs:629-633 | that holds of everything a request lists if and only if the mount has no prefix, or at most one trailing slash and the path names something after at most one slash |
| `Paths.HydrateConfusesNeighbours` | src/hydrate.rs:306-343 | the instance: a blob beside the mount gets the key of one inside it, and that one is asked for in its place |
| `Endpoints.RuntimeState.constructor` | src/transport_ucx.rs:796-805 | an empty table |
| `Endpoints.RuntimeState.UpdatePeerAddrBlob` | src/transport_ucx.rs:807-835 | the address is remembered; an endpoint of another address leaves exactly if it is idle, and otherwise serves no further request |
| `Endpoints.RuntimeState.CheckoutEndpoint` | src/transport_ucx.rs:837-880 | hands out an endpoint exactly if the peer's is not broken and has the asked address, or there is none and one can be created |
| `Endpoints.RuntimeState.ReleaseEndpoint` | src/transport_ucx.rs:882-892 | the last release of a broken endpoint takes it out |
| `Endpoints.RuntimeState.MarkPeerEpBroken` | src/transport_ucx.rs:894-898 | sets the flag of the peer's endpoint |
| `Endpoints.RuntimeState.TakeBrokenPeerEps` | src/transport_ucx.rs:900-916 | takes out exactly the idle broken endpoints, each once |
| `Endpoints.StepInv` | src/transport_ucx.rs:807-916 | what every step keeps: exact counts, handles in the table, nothing taken out twice |
| `Endpoints.EndpointsAreSafe` | src/transport_ucx.rs:807-982 | in every run in_flight equals the outstanding handles, every handle's endpoint is the one in the table and was never taken out, no endpoint is taken out twice |
| `Endpoints.HandedOutSound` | src/transport_ucx.rs:947-961 | a request gets only an endpoint that is not broken and has its address |
| `Endpoints.HandedOutIff` | src/transport_ucx.rs:934-961 | a request gets an endpoint if and only if there is a usable one of its address, shared or not; or there is none, or an idle one of another address, and one can be created |
| `Endpoints.SpentNeverServes` | src/transport_ucx.rs:837-880 | once broken or out, an endpoint is never handed out again in any run |
| `Endpoints.Spends` | src/transport_ucx.rs:807-835 | errors, failed requests and exactly a new address spend an endpoint |
| `Endpoints.SpentIff` | src/transport_ucx.rs:807-916 | a usable endpoint is spent by exactly an error on it, a failed request to its peer or a new address of its peer; every other step leaves it usable |
| `Endpoints.SpentLeaves` | src/transport_ucx.rs:882-916 | a broken endpoint leaves with its last release, and after a reap is in the table exactly if still held |
| `Endpoints.LeaksIff` | src/transport_ucx.rs:947-961 | a step leaves a removed endpoint unclosed only if it is a request that replaced an idle endpoint and could not create another, and then it does |
| `Endpoints.ClosedIffCreationNeverFails` | src/transport_ucx.rs:934-982 | everything taken out is closed in all runs if and only if no creation fails |
| `Listings.Inner.constructor` | src/fuse_fs.rs:74-106 | the root alone, consistent |
| `Listings.Inner.UpsertDir` | src/fuse_fs.rs:278-305 | a name that is there is left alone; a new one becomes an unlisted directory under a new inode, the last child of its parent; the maps stay consistent |
| `Listings.Inner.UpsertFile` | src/fuse_fs.rs:307-354 | the name is a file of the given size afterwards, new or refreshed, unless it is a directory; a new one gets a new inode and is the last child; the maps stay consistent |
| `Listings.Inner.Observe` | src/fuse_fs.rs:208-246 | an entry is taken and marked seen unless it is new and the directory is full |
| `Listings.Inner.DropStale` | src/fuse_fs.rs:247-267 | exactly the children that were not seen are dropped |
| `Listings.Inner.MergeListing` | src/fuse_fs.rs:194-276 | the two loops and the delta-delete compute the listing step the run theorems are about; maps stay consistent, surviving names keep their inode, other directories are untouched, every name shown has the kind and size it was last listed with, and the directory counts as listed |
| `Listings.Inner.LookupHead` | src/fuse_fs.rs:387-421 | a lookup answered by the blob store ends with an indexed inode of that name and size, or of a directory that was there |
| `Listings.ListedOk` | src/fuse_fs.rs:194-276 | a directory not dropped shows nothing unlisted, keeps what it knew of the listing, and shows exactly the listing if and only if all of it was known or fits under the cap |
| `Listings.ListedKind` | src/fuse_fs.rs:208-246 | every plain name a directory shows after a listing is right: a directory stays one, a new name listed as a subdirectory is one, any other file has the size of its last entry or the one it had |
| `Inodes.AddedOk` | src/fuse_fs.rs:278-354 | adding a name keeps index and child lists inverse and duplicate-free |
| `Inodes.DroppedOk` | src/fuse_fs.rs:259-267 | dropping a name does too, for every directory not itself dropped |
| `Inodes.SeenAllIff` | src/fuse_fs.rs:208-246 | a whole listing is taken if and only if it was known or fits under the cap |
| `Listings.InodesAreForever` | src/fuse_fs.rs:194-421 | over any sequence of listings and lookups the maps stay consistent and an inode number always means the same name in the same directory; no number is reused |
| `Listings.DroppedForGood` | src/fuse_fs.rs:247-267 | after a listing drops a directory, its child list and the index agree in every later history if and only if it had no indexed name when dropped |

## Left out

- HTTP and RDMA transport, JSON, authentication, retries, statistics and logging: the blob store is a function returning the clipped range or an error, a peer is an arbitrary reply.
- SHA-256: `key_digest` and `hrw_score` are arbitrary functions, so the theorems hold for every digest and score.
- Clocks, timeouts and task scheduling: timeouts and cancellations are steps that may happen at any time; the times in membership are arbitrary numbers.
- Durability across crashes and the start-up scan of the cache directory: the disk is a map with atomic replacement.
- Threads inside one `DiskCache` call: each method of the class is one atomic step; where calls overlap, CacheRaces.dfy follows the entries and which files exist, not their bytes.
- 64-bit overflow of byte counters, access numbers, inode numbers and endpoint counts: these are unbounded; wrap-around and saturation are modelled for versions, incarnations, digests, read offsets and the loss accounting.
- Prefetch, configuration parsing, stampede metrics, hydrate jobs and the phase A shard runner: they schedule calls of what is modelled here, or count them, and keep no state of their own that a later step depends on.
- Liveness that depends on gossip timing or on peers answering; and staged chunks are not served to peers, because the source serves peers from disk only.
- The endpoint shutdown path, which takes out all endpoints whether in use or not.
- Failures, evictions and the coordinator timeout in the ring: the ring theorems speak of runs without them.
- The time-based listing cache of the inode table.
- UpsertDir: does not store the full path below the mount, on which none of the three maps depends.
- UpsertFile: does not store the full path, the ETag and the modification time, so a refresh replaces the size only; how the path is cut from the listed name is `FusePath` in Paths.dfy.
- CanSucceedIffHopeful: says that a successful continuation exists, not that a scheduler takes it.
- StepRequests: does not model the sort of the plan by node id; ranks are positions in the sorted plan.
- LargerCacheIncludesSmaller: speaks of reads through the cache (hit refreshes, miss inserts) of unchanging contents, not of explicit removals.
