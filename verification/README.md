# Verified model of the hICN forwarder

This project models the forwarding state of the hICN plugin for VPP and proves what it keeps
over all runs: the table of pending interests and cached data (PIT/CS), the packets that hold
references into it between graph nodes, the buffers they share, the MAP-Me mobility protocol
around it, and two neighbours of the forwarder, the FIB reconciliation and the framing of the
HTTP proxy. `dafny verify dfyconfig.toml` checks all of it.

| file | what it models |
|---|---|
| `Table.dfy`, `HashTable.dfy`, `TableMap.dfy`, `Holes.dfy` | the overflow-chained hash table: layout, operations with their loops, its meaning as a map, and when an insert duplicates a hash |
| `Pcs.dfy`, `PcsInvariant.dfy` | the life of PIT and CS entries with lock counts, and the invariant each operation keeps |
| `Graph.dfy`, `Runs.dfy` | the graph nodes as atomic steps, any interleaving of packets, and what holds over whole runs |
| `Locks.dfy`, `PitCount.dfy`, `Ownership.dfy`, `Uniqueness.dfy` | over runs: what locks count, what the count of pending interests counts, when buckets and buffers are given back, when live hashes stay unique |
| `Life.dfy`, `Service.dfy`, `Recency.dfy` | what a step does to an entry, and over runs: who asked and who gets data, when entries expire and end, what the LRU order means |
| `PitCs.dfy` | the PIT/CS object changed in place, on the bucket-chained table and the linked LRU list; it refines the steps of `Graph.dfy` |
| `CsLru.dfy` | the linked LRU list against a plain list |
| `FaceDb.dfy` | the faces of a pending interest: inline array, bucket and bitmap |
| `Buffers.dfy` | cloning, content-store replies and eight-bit reference counts against packets that share nothing |
| `MapMe.dfy`, `MapMeMove.dfy`, `MapMeProgress.dfy` | MAP-Me as a network of forwarders with messages lost, reordered and duplicated: what every run keeps, one move of the producer, and that it can always go on to an end |
| `MapMePacket.dfy` | MAP-Me packets byte by byte |
| `NextHops.dfy` | the two-ended array of next and previous hops, and FIB reconciliation |
| `Retransmit.dfy`, `Rounds.dfy` | the two-slot retransmission scheduler, and how often it sends |
| `Http.dfy` | the incremental reader of the HTTP proxy |
| `Lists.dfy` | notions they share |

How the table, the entries and the graph fit together: module `HashTable` proves the bucket
operations against `Entries`, a map from handles (bucket, overflow flag, slot) to entries.
Modules `Pcs`, `Graph` and `Runs` work on that map. Class `PitCs` does the same steps on the real
table and on the linked LRU list of class `CsLru`, and carries the abstract state as a ghost
field, so every theorem about runs of `Graph` steps is a theorem about runs of its methods.

All runs of `Graph` are runs in which no cached packet is served while it is the only one on the
LRU list, which `count` tells: there the code breaks the list (see below), and nothing holds of
what follows.

What the proofs found, each stated as a lemma:

- An insert may give a live hash a second entry, as its scan stops at the first hole. It does so
  if and only if an unused slot of the row comes before the live entry (`Holes.InsertUniqueIff`,
  for the forwarder `Uniqueness.StrategyUniqueIff`). Four table operations duplicate a hash in
  every table the code allocates (`TableMap.InsertsTwiceInAny`), and so does a race of two
  interests in the forwarder, whose insert comes later than its lookup
  (`Uniqueness.RaceDoubles`, `Uniqueness.RacePlaces`), for any two hashes of one row, such as 8
  and 16 among eight rows (`Uniqueness.EightRows`).
- When an insert meets a live pending interest two locks are taken and one is ever given back. An
  entry has exactly as many locks as holders if and only if that never happened to it
  (`Locks.LocksEqualHoldersIff`); otherwise it stays in the table for ever
  (`Runs.SurplusLockIsForEver`), and this is reachable (`Runs.SurplusLockIsReachable`).
- `pcs_pit_count` is not lowered when `hicn_pcs_remove_lock` frees a pending interest. It is the
  number of pending interests if and only if no step of the run released a marked one as its last
  holder (`PitCount.PitCountIsRightIff`); after a run of nine steps it is 1 while there is none
  (`PitCount.PitCountDrifts`).
- `hicn_cs_lru_update_head` leaves the links of a list if and only if the element is not alone on
  it (`CsLru.UpdateIff`). An interest, its data and the interest again reach the other case
  (`Runs.SoleHitIsReachable`), and then the object's links represent no list at all
  (`PitCs.PitCs.TouchSole`).
- The face bucket has 12 places and the mask 11, so data reaches every listed face if and only if
  there are at most 12 of them (`FaceDb.ReadsBackIff`); 20 are meant to fit. A face gets no data if
  and only if a later one took its place (`FaceDb.ServedIff`), as the thirteenth does the ninth's
  (`FaceDb.ReadsOther`).
- Moving next hops to the TFIB silently drops those that do not fit; none is dropped if and only
  if all of them together fit beside the next hops (`NextHops.PushAllRecords`).
- The event of an outdated update reads the array at the last previous hop, which is inside it if
  and only if there is one (`NextHops.DpoCtx.Targets`); an acknowledgement from the same face that
  comes first leaves none (`NextHops.DpoCtx.AckOvertakes`).
- The retransmission slots never overflow if and only if there are at most 100 FIB entries
  (`Retransmit.SlotsFitIff`).
- With updates of equal sequence number MAP-Me can make a loop (`MapMe.MultipathCanLoop`), and an
  addition does so if and only if the new next hop already leads back (`MapMe.AdditionLoopsIff`).
- A packet created as an acknowledgement loses its prefix: only those forged from an update carry
  it (`MapMePacket.ReadsBackIff`, `MapMePacket.AckEchoes`).
- The HTTP session goes by the header fields of all messages so far. Its framing is right if and
  only if, for every message, a remembered Content-Length is the length of its body, a belief in
  chunks is right, and a last chunk read as such has a size of one digit (`Http.TransparentIff`).
  Otherwise no run passes the messages on as sent (`Http.NeverPassedOn`); streams that go wrong
  are those of `Http.LengthIsRemembered`, `Http.LengthHidesChunks` and `Http.ChunksAreRemembered`.
- A row count that is not a power of two leaves rows unused (`Table.EveryRowUsedIff`). A table for
  at most 28 nodes has no overflow buckets (`HashTable.SizingWrapsIff`). Overflow bucket 0 is never
  handed out, so the buckets that are hold all nodes, four to a bucket, if and only if there are at
  most 32 nodes or their number leaves 1 to 29 by 32 (`HashTable.SizingSufficesIff`).

Where code and comments disagree the model follows the code: an acknowledgement is forged before
the sequence number is looked at, so outdated updates are acknowledged too.

## Model

| member | source | states |
|---|---|---|
| Table.RowIndexIsRemainder | hicn-plugin/src/hashtb.h:487-491 | with a power-of-two row count masking a hash is the remainder |
| Table.EveryRowUsedIff | hicn-plugin/src/hashtb.h:487-491 | every row is used by some hash if and only if the row count is a power of two |
| HashTable.SizingWrapsIff | hicn-plugin/src/hashtb.c:137-213 | the unsigned subtraction wraps around if and only if the table is for at most 28 nodes, which then has no overflow buckets; otherwise rows and overflow buckets, the hidden one included, are as many as hold the nodes, rounded up to eight |
| HashTable.SizingSufficesIff | hicn-plugin/src/hashtb.c:137-213 | the buckets that can be handed out hold all nodes, four to a bucket, if and only if there are at most 32 nodes or their number leaves 1 to 29 by 32; otherwise one is missing |
| Table.RowIsOrdered | hicn-plugin/src/hashtb.c:527-613 | of two buckets of a row one links towards the other |
| Table.ChainIsRow | hicn-plugin/src/hashtb.c:527-613 | following links from a bucket visits exactly the later buckets of its row, each once |
| Table.ChainsPartitionBuckets | hicn-plugin/src/hashtb.c:73-101 | chains have no cycle, and every overflow bucket in use is in the chain of exactly one row |
| Table.FindInRow | hicn-plugin/src/hashtb.c:294-378 | a walk down a chain finds an accepted entry and misses only if the rest of the row has none |
| Table.FindIsComplete | hicn-plugin/src/hashtb.c:294-378 | a lookup succeeds exactly when some entry anywhere has the hash and is live |
| Table.ScanRow | hicn-plugin/src/hashtb.c:457-525 | the insert scan stops at a live entry with the hash, at an unused slot of the row, or at the end of a full row without the hash |
| Table.PutSlotKeeps | hicn-plugin/src/hashtb.c:494-521 | rewriting a slot keeps the table well formed |
| Table.ExtendKeeps | hicn-plugin/src/hashtb.c:527-613 | hanging a new overflow bucket behind a row keeps chains acyclic, disjoint and complete |
| Table.UnlinkKeeps | hicn-plugin/src/hashtb.c:690-768 | taking an emptied overflow bucket out of the middle or the end of its chain does too |
| HashTable.WalkForEntry | hicn-plugin/src/hashtb.c:313-378 | the lookup loop terminates and returns what the specification of the chain walk says |
| HashTable.WalkForPlace | hicn-plugin/src/hashtb.c:457-525 | so does the insert loop |
| HashTable.WalkForParent | hicn-plugin/src/hashtb.c:719-768 | the search for the bucket that links to an emptied one terminates and finds it |
| HashTable.CountNodes | hicn-plugin/src/hashtb.c:695-712 | the count decides whether the bucket holds a node |
| HashTable.FindEntry | hicn-plugin/src/hashtb.c:294-378 | the handle found is that of a live entry with the hash; a miss means there is none |
| HashTable.Lookup | hicn-plugin/src/hashtb.c:294-378 | besides, the entry found gets one lock, except a cached one found by data, and nothing else changes |
| HashTable.ReadEntry | hicn-plugin/src/hashtb.h:347-358 | a handle of an entry reads that entry |
| HashTable.FindPlace | hicn-plugin/src/hashtb.c:457-525 | the place suits the hash: a live entry with it, an unused slot of its row, or the end of a row without it |
| HashTable.Insert | hicn-plugin/src/hashtb.c:422-621 | exactly one entry is added and its node points back to it, or a live entry with the hash is reported and locked if pending, or nothing changes at all for lack of memory, which is exactly if the row is full and no overflow bucket is left; the answer follows the scan |
| HashTable.LockFound | hicn-plugin/src/hashtb.c:470-493 | an entry in the way is locked only if it is a pending interest |
| HashTable.AddBucket | hicn-plugin/src/hashtb.c:527-613 | a new overflow bucket gives exactly one new entry and keeps the table good, counters included |
| HashTable.RemoveNode | hicn-plugin/src/hashtb.c:642-772 | exactly the node's entry goes; an emptied overflow bucket is unlinked and given back; counters still agree |
| HashTable.AllocNode | hicn-plugin/src/hashtb.h:497-515 | a node not in use, or none exactly if the pool is used up |
| HashTable.NewTable | hicn-plugin/src/hashtb.c:142-213 | a new table of given size is good and empty, with the hidden bucket and node counted |
| HashTable.AllocTable | hicn-plugin/src/hashtb.c:106-213 | for 16 to 2^24 nodes, and only then, a good and empty table with the row and overflow counts of the code |
| HashTable.DropBucketGood | hicn-plugin/src/hashtb.c:690-768 | after the last entry of an overflow bucket goes the table is good again with one bucket less in use |
| TableMap.FindIsMapLookup | hicn-plugin/src/hashtb.c:294-378 | with unique live hashes a lookup is that of a map: it returns an entry exactly if it is the live entry with the hash |
| TableMap.InsertKeepsUnique | hicn-plugin/src/hashtb.c:422-621 | an insert keeps live hashes unique if and only if no live entry had the hash |
| TableMap.PutIfMissing | hicn-plugin/src/hashtb.c:294-621 | a lookup and then an insert answer like a map: the node found, or else a new node put exactly if there is a node and a place for it |
| TableMap.TakeAway | hicn-plugin/src/hashtb.c:627-772 | a lookup and then a removal or mark take the hash out of the map |
| TableMap.RunOps | hicn-plugin/src/hashtb.c:294-772 | over any run of such operations on the table, every answer is that of a map from hashes to nodes, which refuses a node exactly if there is no room for it; the table is good at every moment and live hashes are unique |
| TableMap.RunFromNew | hicn-plugin/src/hashtb.c:106-772 | the same from a new table |
| TableMap.InsertsTwice | hicn-plugin/src/hashtb.c:494-521 | four operations from a new table of any number of rows, on any two hashes of one row, after which two live entries have one hash |
| TableMap.InsertsTwiceInAny | hicn-plugin/src/hashtb.c:106-621 | such hashes exist, and it happens, in every table the code allocates |
| Holes.ScanIsFirst | hicn-plugin/src/hashtb.c:457-525 | the insert scan finds the first slot, in the order of the chain, that is unused or has a live entry with the hash |
| Holes.ScanFreeIff | hicn-plugin/src/hashtb.c:457-525 | with a live entry of the hash it finds a hole if and only if one of the row comes before that entry, and the entry otherwise |
| Holes.InsertUniqueIff | hicn-plugin/src/hashtb.c:422-621 | an insert keeps live hashes unique if and only if no live entry of the hash has a hole of its row before it, in the table as it was |
| Holes.InstallBlindly | hicn-plugin/src/strategy_node.c:84-151 | the same of a node allocated and inserted without a lookup |
| PcsInvariant.RemoveLockKeeps | hicn-plugin/src/pcs.h:704-717 | dropping the running node's lock keeps the invariant, and frees a marked entry with its last lock only |
| PcsInvariant.DeleteKeeps | hicn-plugin/src/pcs.h:333-361 | freeing an unlocked entry gives back its node and what it owns and leaves no ticket dangling |
| PcsInvariant.PitDeleteKeeps | hicn-plugin/src/pcs.h:624-641 | deletion of a pending interest, at once or deferred, keeps the invariant |
| PcsInvariant.CsDeleteKeeps | hicn-plugin/src/pcs.h:471-504 | deletion of a cached packet does, and takes it off the LRU list exactly once |
| PcsInvariant.DeleteEntryKeeps | hicn-plugin/src/pcs.h:678-702 | so does deletion of either kind |
| PcsInvariant.ConvertKeeps | hicn-plugin/src/pcs.h:369-420 | a pending interest that becomes a cached packet swaps its face bucket for the buffer and enters the list |
| PcsInvariant.EvictKeeps | hicn-plugin/src/pcs.h:401-419 | eviction of the tail, free or locked, keeps the invariant and shortens the list |
| PcsInvariant.CacheKeeps | hicn-plugin/src/data_fwd_node.c:533-567 | converting, evicting and only then storing the buffer keeps the invariant and the limit, even if the entry evicts itself |
| PcsInvariant.TouchKeeps | hicn-plugin/src/cache_policies/cs_lru.c:139-150 | moving a listed entry to the front keeps the list's members and length |
| PcsInvariant.NewPitKeeps | hicn-plugin/src/strategy_node.c:84-129 | a new pending interest with its node and face bucket keeps the invariant |
| PcsInvariant.LockTwiceKeeps | hicn-plugin/src/strategy_node.c:130-151 | two locks for one holder are accounted for as one surplus lock |
| PcsInvariant.TakeTicketKeeps | hicn-plugin/src/state.h:49-92 | what a packet stored is current when the next graph node reads it |
| PcsInvariant.PutTicketKeeps | hicn-plugin/src/state.h:93-107 | storing a handle with the lock just taken keeps the invariant |
| PcsInvariant.SwapKeeps | hicn-plugin/src/interest_hitcs_node.c:59-67 | replacing a cached buffer by a copy keeps ownership exclusive |
| Graph.OnInterestLookup | hicn-plugin/src/interest_pcslookup_node.c:53-187 | the step keeps the invariant and the cache limit from every safe state |
| Graph.OnDataLookup | hicn-plugin/src/data_pcslookup_node.c:40-180 | the same; data takes no lock on a cached entry and is dropped |
| Graph.OnStrategy | hicn-plugin/src/strategy_node.c:63-157 | the same for insert, entry in the way and failure |
| Graph.OnHitPit | hicn-plugin/src/interest_hitpit_node.c:110-205 | the same for collision, expiry, hand-over, retransmission and aggregation |
| Graph.OnHitCs | hicn-plugin/src/interest_hitcs_node.c:140-202 | the same for collision, expiry and reply, where the entry that replies is not alone on the list |
| Graph.OnDataFwd | hicn-plugin/src/data_fwd_node.c:122-270 | the same for drop, expiry, deletion and caching |
| Graph.Next | hicn-plugin/src/state.h:49-107 | every step of every packet leads from a safe state to a safe state |
| Runs.HandleStability | hicn-plugin/src/state.h:49-107 | at every moment of a run in which a packet holds a ticket, the ticket denotes the entry and node it was issued for, never a later one in the same slot |
| Runs.EvolvesRun | hicn-plugin/src/pcs.h:624-743 | over any run an entry that is still there has the same node and hash, cached stays cached, marked stays marked, and surplus locks stay |
| Life.StepRewrites | hicn-plugin/src/interest_hitpit_node.c:110-205 | a step writes into nodes exactly: a new pending interest with its name, face and expiry, one more face, a copied buffer, or the cached data with its face and expiry; besides that nodes only go |
| Life.StepOutcome | hicn-plugin/src/pcs.h:333-743 | a step ends an entry exactly if a packet for its name comes too late, data satisfies it without being cached, or it is displaced; it makes a cached packet of it exactly if data for its name comes in time, can be cloned and has a lifetime; hash, node and strategy never change |
| Service.EntriesOverRuns | hicn-plugin/src/data_fwd_node.c:533-567 | after any run from the start an entry has name, hash, node and strategy of the step that installed it, and while pending its expiry; it is cached if and only if a step cached data in it, and then came from that data's face and expires at that step's time plus its lifetime, or plus 300000 ms if that is more than a day |
| Service.FacesAreAskers | hicn-plugin/src/interest_hitpit_node.c:169-200 | after any run from the start a pending interest lists exactly the faces of the interests that were installed as it or came to it in time with its name, each once |
| Service.FacesStay | hicn-plugin/src/face_db.h:96-119 | over any run no face leaves the list of an entry that is still pending, and the order stays |
| Service.DataReachesAskers | hicn-plugin/src/data_fwd_node.c:393-505 | data that comes in time goes to the faces of exactly those interests |
| Service.AnswersUntil | hicn-plugin/src/interest_hitcs_node.c:167-195 | a cached packet answers an interest for its name exactly until the end of the lifetime of the data that was cached; after that it ends and the interest goes on to the strategy |
| Service.AggregatesUntil | hicn-plugin/src/interest_hitpit_node.c:143-200 | a pending interest takes in an interest for its name exactly until it expires; after that it ends and the interest goes on to the strategy |
| Service.LivesUntil | hicn-plugin/src/pcs.h:333-743 | over any run an entry can still be found if and only if it never ended in one of these ways |
| Service.InterestLeavesIff | hicn-plugin/src/interest_hitpit_node.c:130-205 | an interest leaves the tables exactly if it does not parse, collides, is refused for lack of a route or of room, is recorded as asking, or is answered |
| Service.LookupGoesOn | hicn-plugin/src/interest_pcslookup_node.c:53-187 | an interest that parses goes on with the entry found, to the node for its kind and with a current ticket, or to the strategy; data goes on exactly if it finds a pending interest |
| Service.StrategyGoesOn | hicn-plugin/src/strategy_node.c:130-151 | an interest goes on with the entry in its way, to the node for its kind |
| Service.DataLeaves | hicn-plugin/src/data_fwd_node.c:122-270 | data leaves the tables at the data-fwd node, and no other packet does |
| Recency.ListedByUse | hicn-plugin/src/cache_policies/cs_lru.c:34-162 | after any run from the start every node on the LRU list was used, and stands before those whose last use, a step that cached data in it or answered from it, is earlier |
| Recency.DisplacesOldest | hicn-plugin/src/pcs.h:401-419 | when caching takes a node off the list, or does not let it on, the cache was full and every node on the list was used later than that one |
| Recency.StepMoves | hicn-plugin/src/interest_hitcs_node.c:183-185 | a step puts the node it uses first and leaves the others in their order |
| Locks.LocksOverRuns | hicn-plugin/src/hashtb.c:484-489 | after any run from the start an entry's locks are its holders plus the times a strategy node met it while pending, since its birth |
| Locks.LocksEqualHoldersIff | hicn-plugin/src/strategy_node.c:130-151 | so locks are never fewer than holders, and exactly the holders if and only if no strategy node met it while pending |
| Runs.OnlyLastHolderFrees | hicn-plugin/src/pcs.h:704-743 | an entry is freed only by a packet that nobody else shares it with, and never with a surplus lock |
| Runs.OthersStay | hicn-plugin/src/state.h:49-107 | a step leaves all other packets as they are |
| Runs.SurplusLockIsForEver | hicn-plugin/src/strategy_node.c:130-151 | an entry with a surplus lock is in the table after every run and has more locks than holders |
| Runs.SurplusLockIsReachable | hicn-plugin/src/strategy_node.c:130-151 | two interests for one name reach such a state in six steps |
| Runs.OneBucketEach | hicn-plugin/src/pcs.h:247-257 | face buckets in use are as many as pending interests |
| Runs.OneBufferEach | hicn-plugin/src/pcs.h:343-349 | each cached packet has one buffer of its own and the cache has no other |
| Runs.EveryReachableState | hicn-plugin/src/pcs.h:333-504 | the LRU list holds exactly the live cached entries, its length is the count and within the limit; the count of pending interests is their number plus those freed uncounted, which `PitCount.PitCountIsRightIff` counts over the run; the face-bucket pool never runs out before the node pool; buffers are as many as cached packets |
| PitCount.StepLeaks | hicn-plugin/src/pcs.h:704-717 | a step frees a pending interest uncounted exactly if it releases, as its last holder, one that is marked deleted |
| PitCount.PitCountIsRightIff | hicn-plugin/src/pcs.h:624-717 | after any run from the start the count of pending interests is their number plus the number of such steps, so it is right if and only if there was none |
| PitCount.PitCountDrifts | hicn-plugin/src/pcs.h:704-717 | a run of nine steps after which the count is 1 and no node is in use |
| Runs.SoleHitIsReachable | hicn-plugin/src/cache_policies/cs_lru.c:151-161 | an interest, its data and the interest again reach a hit on the only cached packet, after which no list fits the links |
| Ownership.BufferLeavesIff | hicn-plugin/src/pcs.h:343-349 | a buffer leaves the cache exactly in the step that frees its node or gives it the copy |
| Ownership.BucketLeavesIff | hicn-plugin/src/pcs.h:350-381 | a face bucket is given back exactly in the step that frees its node or makes a cached packet of it |
| Uniqueness.StepUniqueIff | hicn-plugin/src/strategy_node.c:84-151 | a step keeps live hashes unique if and only if it does not insert a hash that a live entry has |
| Uniqueness.StrategyUniqueIff | hicn-plugin/src/strategy_node.c:84-151 | on a real table the strategy node's step keeps live hashes unique if and only if it gets no node, or no live entry of the hash has a hole before it |
| Uniqueness.RunUnique | hicn-plugin/src/strategy_node.c:84-151 | runs without such a step keep them unique |
| Uniqueness.RaceDoubles | hicn-plugin/src/strategy_node.c:84-151 | for any two hashes of one row, a run of twelve steps after which two live entries have one hash |
| Uniqueness.RacePlaces | hicn-plugin/src/hashtb.c:457-525 | the places of that run are those the scan finds in any table in which the two hashes share the row |
| Uniqueness.PairFor | hicn-plugin/src/hashtb.h:487-491 | for every row count there are two hashes of one row |
| Uniqueness.EightRows | hicn-plugin/src/hashtb.h:487-491 | hashes 8 and 16 share row 0 of a table for 128 nodes, which has eight rows |
| PitCs.PitCs.constructor | hicn-plugin/src/pcs.c:23-47 | an empty PIT/CS on a new table |
| PitCs.PitCs.DeleteInternal | hicn-plugin/src/pcs.h:333-361 | the bucket-chained table, node data and pools follow the abstract deletion |
| PitCs.PitCs.RemoveLock | hicn-plugin/src/pcs.h:704-717 | refines the abstract release of a lock |
| PitCs.PitCs.PitDelete | hicn-plugin/src/pcs.h:624-641 | refines the abstract deletion of a pending interest |
| PitCs.PitCs.CsDelete | hicn-plugin/src/pcs.h:471-504 | refines the abstract deletion of a cached packet |
| PitCs.PitCs.DeleteTrimmed | hicn-plugin/src/pcs.h:722-743 | refines the abstract deletion of an evicted entry |
| PitCs.PitCs.TakeOff | hicn-plugin/src/cache_policies/cs_lru.c:88-130 | the linked list follows the abstract removal |
| PitCs.PitCs.Touch | hicn-plugin/src/cache_policies/cs_lru.c:135-162 | the linked list follows the abstract move to the front, if the node is not alone |
| PitCs.PitCs.TouchSole | hicn-plugin/src/cache_policies/cs_lru.c:151-161 | if it is, the links represent no list any more |
| PitCs.PitCs.Evict | hicn-plugin/src/pcs.h:401-419 | refines the abstract eviction: the tail of the linked list goes |
| PitCs.PitCs.PitToCs | hicn-plugin/src/pcs.h:369-420 | refines the abstract conversion |
| PitCs.PitCs.Delete | hicn-plugin/src/pcs.h:678-702 | refines the abstract deletion |
| HashTable.Install | hicn-plugin/src/strategy_node.c:84-151 | a node is allocated, named and inserted, or given back: on an entry in the way or lack of memory the pool is as before |
| PitCs.PitCs.PitInsert | hicn-plugin/src/pcs.h:605-621 | fails to get a node exactly if the pool is used up; otherwise the table answers as the abstract step allows |
| PitCs.PitCs.Search | hicn-plugin/src/hashtb.c:294-378 | the table's answer to a lookup is one the abstract step allows, and the entry is locked |
| PitCs.PitCs.InterestLookup | hicn-plugin/src/interest_pcslookup_node.c:53-187 | the graph node on the real table takes the abstract step |
| PitCs.PitCs.DataLookup | hicn-plugin/src/data_pcslookup_node.c:40-180 | the same |
| PitCs.PitCs.Strategy | hicn-plugin/src/strategy_node.c:63-157 | the same |
| PitCs.PitCs.HitPit | hicn-plugin/src/interest_hitpit_node.c:110-205 | the same |
| PitCs.PitCs.HitCs | hicn-plugin/src/interest_hitcs_node.c:140-202 | the same, the list being the linked one |
| PitCs.PitCs.DataFwd | hicn-plugin/src/data_fwd_node.c:122-270 | the same; the faces it sends to are those that `Service.DataReachesAskers` is about |
| CsLru.CsLru.Insert | hicn-plugin/src/cache_policies/cs_lru.c:34-68 | the links represent the list with the node in front |
| CsLru.CsLru.Dequeue | hicn-plugin/src/cache_policies/cs_lru.c:88-130 | the links represent the list without the node, wherever it was, and its own are cleared |
| CsLru.CsLru.UpdateHead | hicn-plugin/src/cache_policies/cs_lru.c:135-162 | on a list of two or more the node moves to the front; what happens to a sole element is stated too |
| CsLru.CsLru.DeleteGet | hicn-plugin/src/cache_policies/cs_lru.c:70-83 | the last element of the list |
| CsLru.JoinedRepresents | hicn-plugin/src/cache_policies/cs_lru.c:95-129 | joining the neighbours of a node represents the list without it |
| CsLru.UpdateIff | hicn-plugin/src/cache_policies/cs_lru.c:135-162 | the links after a move to the front are those of some list if and only if the element is not alone, and then of the list with it in front |
| CsLru.SoleElementBreaks | hicn-plugin/src/cache_policies/cs_lru.c:151-161 | what is left of a list with a sole element represents no list |
| FaceDb.ReadsBack | hicn-plugin/src/face_db.h:74-119 | up to twelve faces read back in the order they were added |
| FaceDb.ServedIff | hicn-plugin/src/face_db.h:74-119 | some index reads a listed face if and only if no later face took its place |
| FaceDb.ReadsOther | hicn-plugin/src/face_db.h:74-119 | with more than twelve no index reads the ninth face |
| FaceDb.ReadsBackIff | hicn-plugin/src/face_db.h:74-119 | every listed face is served if and only if there are at most twelve, and then in order |
| FaceDb.MarkKeeps | hicn-plugin/src/face_db.h:112-118 | setting a bit keeps the bitmap exactly that of the listed faces |
| FaceDb.FaceDb.Get | hicn-plugin/src/face_db.h:74-82 | reads the place of the index, inline or in the bucket |
| FaceDb.FaceDb.Search | hicn-plugin/src/face_db.h:121-132 | found exactly if a listed face has the same identifier modulo 512 |
| FaceDb.FaceDb.Add | hicn-plugin/src/face_db.h:96-119 | list, bucket and bitmap agree on the list with one face more |
| FaceDb.FaceDb.Flush | hicn-plugin/src/face_db.h:134-142 | the list is empty and the bucket goes back with no bit set, as a new list needs it |
| FaceDb.FaceDb.OnInterest | hicn-plugin/src/interest_hitpit_node.c:169-200 | a marked face retransmits, another is added, and no face is listed twice; with identifiers below 512 marked means listed, so the list grows as in the graph node's step |
| FaceDb.FaceDb.Satisfy | hicn-plugin/src/data_fwd_node.c:393-505 | data is sent to every listed face, each once and in order, if and only if there are at most twelve |
| Buffers.StepKeeps | hicn-plugin/src/data_fwd.h:78-206 | after every step each shared buffer's count is the number of its clones and entries, between 1 and 255 |
| Buffers.CountsAreExact | hicn-plugin/src/data_fwd.h:151-206 | the same after every run |
| Buffers.ClonesAreExact | hicn-plugin/src/data_fwd.h:84-135 | every clone, copied or chained, has the bytes of the packet |
| Buffers.EntryIsExact | hicn-plugin/src/data_fwd_node.c:566-567 | and so has the content-store entry |
| Buffers.SharedIff | hicn-plugin/src/data_fwd.h:84-135 | packets of up to 256 bytes are copied for each face; the clones of longer ones have 128 bytes of their own and share the rest, which counts them |
| Buffers.ReplyIsExact | hicn-plugin/src/interest_hitcs_node.c:41-82 | a reply has the bytes of the entry in all three cases, and the entry keeps them, also when its buffer is replaced at 255 references |
| Buffers.ReplySharedIff | hicn-plugin/src/interest_hitcs_node.c:41-82 | a small entry is copied into the reply; a large one is shared with it, or at 255 references its copy is, which takes its place |
| Buffers.StepFollows | hicn-plugin/src/data_fwd.h:78-206 | each step does to the bytes of every packet and entry what it does if nothing is shared; rewriting a head alters no other packet |
| Buffers.RunFollows | hicn-plugin/src/data_fwd_node.c:347-391 | the same over runs |
| Buffers.EntryReplays | hicn-plugin/src/interest_hitcs_node.c:41-82 | over any run an entry that is not evicted keeps its bytes, whichever buffer holds them |
| Buffers.BufferManager.Clone256 | hicn-plugin/src/data_fwd.h:78-135 | the loops make exactly the copies or heads, advance the source and set its count |
| Buffers.BufferManager.Clone2 | hicn-plugin/src/data_fwd.h:151-206 | the count forced to one and restored ends as before plus clones less one |
| Buffers.BufferManager.SatisfyFaces | hicn-plugin/src/data_fwd_node.c:347-391 | the small flag is set exactly in the copy case; n clones leave n + 1 references |
| Buffers.BufferManager.ForwardData | hicn-plugin/src/data_fwd_node.c:228-270 | n + 1 references if kept, n if not, and a small packet that is not kept is freed |
| Buffers.BufferManager.CloneFromCs | hicn-plugin/src/interest_hitcs_node.c:41-82 | the code takes the step that the byte-exactness theorems are about |
| MapMe.StepKeeps | hicn-plugin/src/mapme_ctrl_node.c:126-198 | every step keeps: senders have what they announce or acknowledge, next hops are not behind, previous hops are recorded or have caught up |
| MapMe.RunKeeps | hicn-plugin/src/mapme_ctrl_node.c:88-198 | the same over every run with lost, duplicated and reordered messages |
| MapMe.StepNotified | hicn-plugin/src/mapme_ack_node.c:87-99 | an acknowledgement removes a previous hop only once it has caught up |
| MapMe.PathClimbs | hicn-plugin/src/mapme_ctrl_node.c:126-198 | sequence numbers do not decrease along a route |
| MapMe.LoopsAreLevel | hicn-plugin/src/mapme_ctrl_node.c:126-198 | a loop lies within one sequence number, whatever the updates |
| MapMe.AcceptorOffLoops | hicn-plugin/src/mapme_ctrl_node.c:126-168 | a node that has just accepted a higher sequence number is on no loop |
| MapMe.StepKeepsAcyclic | hicn-plugin/src/mapme_ctrl_node.c:126-198 | no step but an equal-number addition closes a loop |
| MapMe.SinglePathIsLoopFree | hicn-plugin/src/mapme_ctrl_node.c:126-168 | from a loop-free start single-path runs stay loop free |
| MapMe.StartIsLoopFree | hicn-plugin/src/mapme_ctrl_node.c:126-198 | the start of the looping run keeps the invariant and has no loop |
| MapMe.OrderedAdditionsAreLoopFree | hicn-plugin/src/mapme_ctrl_node.c:169-185 | multipath runs are loop free as long as nodes add only next hops that accepted the sequence number before they did |
| MapMe.StepKeepsOrdered | hicn-plugin/src/mapme_ctrl_node.c:126-198 | within a sequence number next hops accepted it earlier, and every other step keeps that |
| MapMe.AdditionLoopsIff | hicn-plugin/src/mapme_ctrl_node.c:169-185 | an equal-number addition closes a loop if and only if the new next hop already leads back |
| MapMe.MultipathCanLoop | hicn-plugin/src/mapme_ctrl_node.c:169-185 | a run from a loop-free start after which two forwarders point at each other |
| MapMeMove.RunMoves | hicn-plugin/src/mapme_ctrl_node.c:126-168 | what holds from the announcement of a move on, over every run |
| MapMeMove.HeardReaches | hicn-plugin/src/mapme_ctrl_node.c:126-168 | whoever has heard of the move has a route to the producer |
| MapMeMove.MoveConverges | hicn-plugin/src/mapme_eventmgr.c:271-303 | once no node has a previous hop left to tell, every node whose old route meets one from the new attachment reaches the producer there |
| MapMeProgress.UpdateIsAnswered | hicn-plugin/src/mapme_ctrl_node.c:88-198 | every update is acknowledged with its own number; a higher one makes the sender the only next hop, an equal one adds it, and the sender of an outdated one becomes a previous hop |
| MapMeProgress.AckIsTaken | hicn-plugin/src/mapme_ack_node.c:87-99 | a current acknowledgement removes exactly its sender from the previous hops; an outdated one does nothing |
| MapMeProgress.GivingUpForgets | hicn-plugin/src/mapme_eventmgr.c:498-520 | a node that gives up has nobody left to tell and sends no more |
| MapMeProgress.QuietIsReachable | hicn-plugin/src/mapme_ctrl_node.c:88-198 | from every state of the network, whatever happened, there is a run of sending, receiving and acknowledging after which nobody has anybody left to tell |
| MapMeProgress.MoveCanConverge | hicn-plugin/src/mapme_ctrl_node.c:88-198 | so after every move there is a run to the state that MoveConverges is about |
| MapMeProgress.OutdatedCatchesUp | hicn-plugin/src/mapme_ctrl_node.c:186-198 | over any run, with messages lost or not, in which a node neither gives up nor announces, the sender of an outdated update stays a previous hop of it until it has caught up |
| MapMeProgress.RunApart | hicn-plugin/src/mapme_ctrl_node.c:126-198 | over a move no node is both a next and a previous hop of another |
| MapMePacket.CreateThenParse | lib/src/mapme.c:28-103 | parsing a created packet, version 4 or 6, gives its prefix, length, kind and sequence number, but for what acknowledgements lose |
| MapMePacket.FieldsOfV4 | lib/src/mapme.c:28-62 | every byte of a created version 4 packet: header, name, type, sequence number and length at their offsets |
| MapMePacket.FieldsOfV6 | lib/src/mapme.c:64-92 | the same for version 6 |
| MapMePacket.AckFields | lib/src/mapme.c:105-145 | an acknowledgement differs from its update in addresses, hop limit, type and checksum, at their offsets, and in nothing else |
| MapMePacket.ReadsBackIff | lib/src/mapme.c:28-208 | it gives back all of it if and only if it is an update, or an acknowledgement for the zero prefix |
| MapMePacket.AckEchoes | lib/src/mapme.c:105-208 | the acknowledgement forged from any update, made here or received, parses as one for the same prefix and sequence number |
| MapMePacket.UpdateIsAcknowledged | lib/src/mapme.c:28-208 | from the update sent to the acknowledgement of it |
| MapMePacket.CreateAck | lib/src/mapme.c:105-145 | the swap in place leaves exactly the acknowledgement, byte by byte |
| NextHops.PushAllRecords | hicn-plugin/src/mapme_ctrl_node.c:142-158 | moved next hops become previous hops, all of them if and only if all fit; never another face, and no duplicates |
| NextHops.AllMove | hicn-plugin/src/mapme_ctrl_node.c:142-158 | with room for as many again all of them move |
| NextHops.DpoCtx.AddNh | hicn-plugin/src/strategy_dpo_ctx.c:99-133 | a face is appended and locked exactly if it is not a next hop; previous hops stay |
| NextHops.DpoCtx.DelNh | hicn-plugin/src/strategy_dpo_ctx.c:136-158 | the last next hop takes the deleted one's place; exactly that face and its lock go |
| NextHops.DpoCtx.TfibAdd | hicn-plugin/src/mapme.h:147-172 | a previous hop is recorded and locked once; it fails exactly if the array is full |
| NextHops.DpoCtx.TfibDel | hicn-plugin/src/mapme.h:196-225 | exactly that previous hop and its lock go, the others keep their order |
| NextHops.DpoCtx.MoveToTfib | hicn-plugin/src/mapme_ctrl_node.c:142-158 | the loop records the next hops in turn while the array it reads from is written at its other end |
| NextHops.DpoCtx.NhSet | hicn-plugin/src/mapme.h:104-121 | the ingress face becomes the only next hop |
| NextHops.DpoCtx.ProcessUpdate | hicn-plugin/src/mapme_ctrl_node.c:126-198 | the array takes the protocol's step on an update, for higher, equal and lower numbers, with the next hops that fit, all of them if there is room; an outdated update on a full array leaves no trace |
| NextHops.DpoCtx.ProcessAck | hicn-plugin/src/mapme_ack_node.c:87-99 | and on an acknowledgement |
| NextHops.DpoCtx.Targets | hicn-plugin/src/mapme_eventmgr.c:271-303 | updates go to all previous hops or to the one recorded last; the place read for that one is inside the array if and only if there is a previous hop |
| NextHops.DpoCtx.AckOvertakes | hicn-plugin/src/mapme_eventmgr.c:271-303 | an outdated update and then an acknowledgement from the same face leave no previous hop for its event |
| NextHops.DpoCtx.DropUnwanted | hicn-plugin/src/route.c:329-345 | the scan that deletes while it advances ends, and the desired faces are those it kept and those it left |
| NextHops.DpoCtx.AddMissing | hicn-plugin/src/route.c:347-356 | the rest is added once each, duplicates or not, and every temporary lock is given back |
| NextHops.DpoCtx.Sync | hicn-plugin/src/route.c:253-357 | the next hops are the desired faces; each face's locks change by new less old membership; previous hops stay |
| NextHops.LocksMoved | hicn-plugin/src/strategy_dpo_ctx.c:99-158 | with one lock per stored face before and after, locks follow membership face by face |
| Retransmit.NextHopSetKeeps | hicn-plugin/src/mapme_eventmgr.c:375-428 | a new next hop leaves at most one live record of the entry |
| Retransmit.TimeoutKeeps | hicn-plugin/src/mapme_eventmgr.c:471-525 | so does a timeout, and the next slot has room for what is moved there |
| Retransmit.EveryRun | hicn-plugin/src/mapme_eventmgr.c:305-534 | over any events about at most 100 entries no slot overflows, no entry has two live records and the timer runs while there is one |
| Retransmit.SlotsFitIff | hicn-plugin/src/mapme_eventmgr.c:309-433 | no run overflows a slot if and only if there are at most 100 FIB entries |
| Retransmit.TimerStops | hicn-plugin/src/mapme_eventmgr.c:471-534 | without further events the timer stops within 12 timeouts |
| Retransmit.RecordAges | hicn-plugin/src/mapme_eventmgr.c:498-519 | each timeout retransmits a live record once more, and after ten rounds it is gone |
| Rounds.ExactRounds | hicn-plugin/src/mapme_eventmgr.c:375-520 | after any events and then a new next hop, with nothing but timeouts for the FIB entry: the first timeout does not send for it, exactly the next ten do, and exactly the last of these gives up on it |
| Rounds.TimerLasts | hicn-plugin/src/mapme_eventmgr.c:471-534 | meanwhile the timer runs until the twelfth timeout |
| Rounds.EventsWake | hicn-plugin/src/mapme_eventmgr.c:375-534 | every event but an acknowledgement keeps the timer running over the next timeout, and with no records it stops at the second |
| Retransmit.EventMgr.NextHopSet | hicn-plugin/src/mapme_eventmgr.c:375-428 | the loops over the slot arrays do what the specification says |
| Retransmit.EventMgr.Timeout | hicn-plugin/src/mapme_eventmgr.c:471-534 | the same; exactly the known live records are sent and exactly those at their last round are given up |
| Http.StepKeeps | apps/http-proxy/src/http_session.cc:150-272 | each callback keeps the account of what was passed on and what is left, wherever the socket split the bytes, as long as the remembered fields suit the message |
| Http.ChunkFound | apps/http-proxy/src/http_session.cc:212-229 | the size line and the chunk's length are found whatever else was read with it |
| Http.SuitsIff | apps/http-proxy/src/http_session.cc:238-255 | the remembered fields suit a message exactly if they say what its own header says, or a remembered length happens to be that of its chunks |
| Http.FramingIsTransparent | apps/http-proxy/src/http_session.cc:150-272 | at any time of any run of a suitable stream the pieces passed on are the first messages byte by byte, each up to its marked piece |
| Http.AllPassedOn | apps/http-proxy/src/http_session.cc:150-272 | once all bytes are handled all messages have been passed on and nothing besides |
| Http.TransparentIff | apps/http-proxy/src/http_session.cc:238-255 | a run that handles all bytes passes on exactly the messages if and only if the fields of all headers so far suit each message and every last chunk is recognised |
| Http.UnclearFails | apps/http-proxy/src/http_session.cc:238-263 | from any point of an unsuitable stream the messages are never passed on as sent, however the session goes on |
| Http.NeverPassedOn | apps/http-proxy/src/http_session.cc:238-263 | no run of an unsuitable stream passes the messages on as sent |
| Http.LengthIsRemembered | apps/http-proxy/src/http_session.cc:244-249 | a message of five bytes and then one without a body is such a stream |
| Http.LengthHidesChunks | apps/http-proxy/src/http_session.cc:244-254 | so is a message of five bytes and then a chunked one of eleven |
| Http.ChunksAreRemembered | apps/http-proxy/src/http_session.cc:250-258 | so is a chunked message and then one without a body, even if that names another coding |
| Http.ZeroChunkIff | apps/http-proxy/src/http_session.cc:188-188 | a zero-sized chunk ends the message if and only if its size is one digit |
| Http.HexReads | apps/http-proxy/src/http_session.cc:212-229 | every chunk size, in digits of either case, is read as the number written |
| Http.GoesOn | apps/http-proxy/src/http_session.cc:150-272 | while bytes are left the session can go on |
| Http.StepAdvances | apps/http-proxy/src/http_session.cc:150-272 | every callback handles a byte or turns from a size line to its chunk |
| Http.RunsEnd | apps/http-proxy/src/http_session.cc:150-272 | so every run ends, within twice the bytes and one |
| Http.HttpSession.HandleRead | apps/http-proxy/src/http_session.cc:150-177 | the callback takes the step that the theorems are about |
| Http.HttpSession.DoReadBody | apps/http-proxy/src/http_session.cc:179-210 | the same |
| Http.HttpSession.ChunkedHeaderRead | apps/http-proxy/src/http_session.cc:212-229 | the same |
| Http.HttpSession.HeaderRead | apps/http-proxy/src/http_session.cc:231-272 | the same, with the header map that no message clears |

## Left out

- VPP infrastructure: frames, speculative enqueue, tracing, node counters, prefetching, CLI and binary API. Pools are sets of indices; which free index a pool hands out is arbitrary.
- Hash functions, name parsing, clocks and floating-point time: hashes are arbitrary numbers other than 0, names arbitrary numbers, time an integer, and whether a packet parses is a parameter.
- The `USE_SEVEN` branches and the walker `hicn_hashtb_next_node`; failure to allocate the table.
- HashTable.NewTable: takes the numbers of rows and overflow buckets; `HashTable.AllocTable` calls it with those the code computes.
- The 32-bit width of lock counts: they are unbounded numbers, so wrap-around after four billion surplus locks is not modelled.
- The table of module HashTable is a value that its methods return changed; class PitCs keeps it in a field and replaces it. Aliasing of bucket pointers is not captured.
- The references that entries hold on strategy contexts (`hicn_strategy_dpo_ctx_lock`), the choice of next hop and `pe_txnh`, and the strategy callbacks.
- Data pushed without an interest (`hicn_pcs_cs_insert`, `hicn_pcs_cs_insert_update`) and flushing the content store.
- Graph.OnHitCs: is modelled up to the first hit on an entry that is alone on the LRU list; what the code does with the broken list afterwards is not.
- Graph.OnDataFwd: whether all clones could be allocated is a parameter; module Buffers models the clones.
- Graph.OnStrategy: the time when a pending interest expires is a parameter; the code takes its lifetime, cut to a configured maximum.
- Service.DataReachesAskers: is about the list of faces; with more than twelve of them the array of module FaceDb does not give them all.
- Pcs keeps the faces of a pending interest as a list; module FaceDb proves the array, bucket and bitmap against such a list.
- PitCs.PitCs.Strategy: assumes a free face bucket is given to it; `Runs.EveryReachableState` shows that a pool of the node pool's size has one.
- Buffers.BufferManager.Clone2: its branch for more clones than the count has room for calls `vlib_buffer_clone`, which is not part of this repository; so is failure to allocate buffers. Packets of several segments are not modelled: only the first segment's count is restored.
- NextHops.DpoCtx.AddNh: room is a precondition, because the check in the code does not see the previous hops; faces flagged as deleted are not modelled.
- NextHops.DpoCtx.ProcessUpdate: where the comparison with the ingress face ends the move loop is a parameter, since it depends on adjacencies; the event it raises is the input of module Retransmit. Without a place for a new next hop the code writes past the array, which is not modelled.
- `hicn_mapme_nh_set` goes through the IP FIB; its effect here is that all next hops are replaced. `hicn_mapme_tfib_clear` is modelled by its effect on the recorded previous hops, not on face locks.
- NextHops.DpoCtx.Targets: needs a previous hop where only the last one is sent to; what the code reads and sends past the array, when an acknowledgement came first, is not modelled. A `Send` of module MapMe is to a recorded previous hop.
- MapMe: one prefix, known to every node; faces are named by the neighbour. Sequence numbers are unbounded, so their wrap-around after 32 bits is not modelled.
- MapMeMove.MoveConverges: is about one move, announced once, in which nobody gives up and all former next hops but the ingress are moved.
- MapMePacket.CreateThenParse: fields are stored as on a little-endian host; the total length of a version 4 packet is not converted by the code and is stored so.
- Http: header parsing is an arbitrary function from a header to its Content-Length and Transfer-Encoding; another transfer coding than chunked says nothing about where a body ends. Chunk sizes are plain hexadecimal digits: where `std::stoul` throws, no step is possible, and signs, blanks and prefixes are not modelled. Trailers, errors and reconnection are not modelled. What a read leaves beyond a delimiter is less than one buffer.
- `hicn_route_disable`, the face manager, configuration, and the command-line tools.
