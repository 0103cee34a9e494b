# Verification of the cache group

A Dafny model of a distributed cache: a two-level LRU store and a byte-bounded
LRU store, the shell that creates and closes a store, request merging, the read
path of a cache group, the consistent-hash ring that assigns keys to nodes, and
the short-code encoder of the link-shortening example. `dafny verify
dfyconfig.toml` checks everything.

Code that changes objects in place is modelled by classes (`Lru2List.Cache`,
`Lru2Shard.Shard`, `Lru2Store.Store`, `RingMap.Map`, `RingLocked.LockedMap`,
`ByteLru.Cache`) whose
methods are proved against functions on plain values; the laws are then proved
about those functions and about all runs. Code whose point is interleaving
(`SingleFlight`, `Lifecycle`, `ByteLruRuns`, `GroupGet`, `GroupByteLru`) is modelled by step
machines, one step per atomic action, for any finite number of threads. Clock
readings are arguments. Eviction callbacks are results of the operation, or
entries of a log.

| module | part of the program |
|---|---|
| `Prelude`, `Measure` | machine integers, keys, values; sums over maps |
| `Hashing` | string hash, bucket mask |
| `Lru2List` | the doubly linked list kept in an index table |
| `Lru2Laws` | laws of the list as a sequence |
| `Lru2Bucket`, `Lru2Shard` | one bucket of two lists, as a value and as an object |
| `Lru2Store` | the store of many buckets |
| `Lru2Coherence`, `Lru2Recency` | over all runs: which value a hit returns; whom each level evicts |
| `RingSpec`, `RingRoute`, `RingMap`, `RingRuns` | the hash ring as a set of points; routing; the object; histories |
| `RingLocked` | the ring object behind its lock |
| `RingCollisions` | rings with colliding virtual nodes |
| `SingleFlight`, `SingleFlightRuns` | merging of concurrent requests; what it guarantees over whole runs |
| `ByteLruSpec`, `ByteLru`, `ByteLruRuns` | the byte-bounded store as a value; as an object; with interleaved readers |
| `Lifecycle`, `LifecycleUse` | lazy creation against closing; which operations reach the store |
| `GroupGet`, `GroupFresh`, `GroupKept`, `GroupWitness`, `GroupProgress` | the composed read path: its values, its freshness with examples, its progress |
| `GroupLoad`, `GroupReplies` | which load a Get is answered from; answers after Delete, cleanup and Close |
| `GroupByteLru` | the read path over the byte-bounded store |
| `ShortCode` | base-62 codes |

## Claims that do not hold as stated

For each, one lemma exhibits a failing run or state, and another gives the exact
condition under which the program does keep the promise.

- "A hit returns the latest value." `Lru2Coherence.StaleRead` shows an old value
  coming back; `Lru2Coherence.Coherence` says the latest value is returned
  exactly when the key's live first-level entry was not evicted for room since
  its latest Set, and `Lru2Coherence.SpilledBy` says which Set evicts it.
- "For concurrent calls with one key fn is executed once, and the others share
  its result." `SingleFlightRuns.SecondRun` shows two callers inside Do at the
  same time that both execute fn, one after the other, although no Store replaces
  an entry. `SingleFlightRuns.MergesIff`: every caller that overlaps a call shares
  its result exactly when no caller of the key is ever between its Load and its
  Store while another call of the key is between Store and Delete.
- "fn runs at most once at a time per key." `SingleFlight.DoubleRun` shows it
  running twice; `SingleFlightRuns.NeverTwiceIff` says this is avoided exactly
  when no Store of the key is made while another caller runs fn for it. That no
  Store replaces an entry is a different matter: `SingleFlight.AloneIff` says it
  is equivalent to calls never overlapping between Store and Delete, and
  `SingleFlightRuns.QuietOverlap` shows such an overlap without fn running twice.
- "An unbalanced ring is rebalanced." `rebalanceNodes` holds the lock that its
  call of `Remove` asks for again, so it never returns once a node is to be
  resized, and no later request does. `RingLocked.Overloaded` reaches this state
  with two nodes and 1000 requests for one key;
  `RingLocked.LockedMap.RebalanceNodes` and `RingLocked.LockedMap.CheckAndRebalance`
  block exactly when some node is to get another number of virtual nodes, and
  `RingLocked.MovesIff` says when that is, from its count, its load and the
  configured range. `RingMap.Map.RebalanceNodes` is what the body would do
  without the second lock.
- "A Get after a Set returns the value set." A Get that loaded before the Set can
  write back after it: `GroupWitness.OldValueFound` is a run from a new group after
  which the older value is found. `GroupFresh.LatestSetSeen`: as long as the key is
  not spilled, a hit returns the value of the latest Set exactly when the last
  write-back of the key after it, if there is one, stored the same value
  (`GroupWitness.NewValueFound` is a run in which a second write-back restores it).
  `GroupKept.SetKept`: if at the Set no Get of the key is past its cache miss, and
  afterwards no event deletes the key, finds it expired or drops it for room, every
  Get finds the value set.
- "A Get of an expired key removes the expired entry." In the byte-bounded store
  it removes whatever is stored by the time it takes the write lock
  (`ByteLruRuns.LostUpdate`); `ByteLruRuns.LosesIff` says it removes an unexpired
  entry exactly when the key is stored then and its last renewal between the two
  phases still holds.
- "Removing a node leaves no trace of it." With colliding virtual nodes it does:
  after `RingCollisions.Collide` every request finds a nil counter.
  `RingCollisions.SharedPointDangles`: a removal leaves a point without owner exactly
  when the removed node shares that point with another one.
- "Adding a node again replaces it." `RingRuns.DuplicateDangles` shows points
  without owner left behind; `RingRuns.JoinExact` says the ring stays canonical
  exactly when the node had no virtual nodes.
- "usedBytes stays within maxBytes after every write." An update of a stored key
  evicts nothing (`ByteLruSpec.UpdateOverflows`);
  `ByteLruSpec.BoundAfterWrite` gives the exact condition.
- "Deleted entries are reused first" is true of the first level, which never
  reorders on reads. A second-level read can break it
  (`Lru2Coherence.TouchBreaksOrder`, and from an empty bucket
  `Lru2Recency.DeletedOutlivesLive`); `Lru2Coherence.TouchedDeadLast` says exactly
  when.

## Model

| member | source | states |
|---|---|---|
| Hashing.HashBKRD | store/lru2.go:306-312 | wrapping at each character gives the unbounded hash polynomial wrapped once to 32 bits |
| Hashing.PolyOne | store/lru2.go:306-312 | the hash of a single character is its byte |
| Hashing.PolyConcat | store/lru2.go:306-312 | every character weighs 131 times the next |
| Hashing.MaskOfNextPowOf2 | store/lru2.go:317-328 | for every 16-bit argument the result plus one is the least power of two not below it |
| Hashing.SmearStep | store/lru2.go:323-327 | one shift-and-or doubles the run of leading ones, up to the length of the number |
| Hashing.PowerOfTwo | store/lru2.go:318-320 | a positive number with c & (c - 1) == 0 is a power of two |
| Hashing.MaskIsRemainder | store/lru2.go:101-103 | ANDing a wrapped hash with 2^j - 1 is the Euclidean remainder of the unbounded hash, also when the hash is negative |
| Hashing.BucketInRange | store/lru2.go:101-104 | the bucket index of every key is valid and is the unbounded hash modulo the number of buckets |
| Hashing.BucketCountFits | store/lru2.go:71-78 | the bucket count survives 16-bit arithmetic exactly when at most 32768 buckets are asked for |
| Lru2List.Cache.constructor | store/lru2.go:359-366 | the 16-bit row count cap + 1 makes a usable empty list exactly when 0 < cap < 65535 |
| Lru2List.Cache.Adjust | store/lru2.go:463-475 | for either direction, the linked list seen in that direction becomes the moved slot followed by the others in order |
| Lru2List.LinkedMirror | store/lru2.go:456-475 | exchanging the two link columns reverses the list, so the proof for the head serves the tail |
| Lru2List.LinkedRemove | store/lru2.go:465-467 | the two splice assignments leave exactly the list without that slot, linked both ways |
| Lru2List.LinkedPush | store/lru2.go:470-473 | the four insertion assignments put the slot in front of the list, linked both ways |
| Lru2List.Cache.Put | store/lru2.go:380-420 | the entry sequence becomes the stored entry in front of the others; a full list gives up exactly its last entry, which is reported with its liveness |
| Lru2List.Cache.Get | store/lru2.go:424-430 | a known key moves to the front, live or not, nothing else changes order, and its entry is returned |
| Lru2List.Cache.Del | store/lru2.go:435-444 | a live entry is marked deleted and moved to the back with its deadline returned; otherwise nothing changes |
| Lru2List.Cache.Walk | store/lru2.go:448-454 | the link walk ends, and visits each live entry once in list order until the walker stops it |
| Lru2Laws.StoredLookup | store/lru2.go:380-420 | after put the key has its new value and every other key keeps its entry, except the one reported as overwritten |
| Lru2Laws.TouchedLookup | store/lru2.go:424-430 | get changes no lookup |
| Lru2Laws.KilledLookup | store/lru2.go:435-444 | del makes its own key absent and changes no other lookup |
| Lru2Laws.DeadLastKept | store/lru2.go:388-444 | put and del keep deleted entries behind all live ones |
| Lru2Laws.LiveVictim | store/lru2.go:388-400 | when deleted entries are last, put overwrites a live one only if all slots are live |
| Lru2Bucket.Deadline | store/lru2.go:174-185 | deadlines saturate at the largest int64 instead of overflowing, and are positive |
| Lru2Bucket.WriteLookup | store/lru2.go:187-197 | a Set installs its value and deadline in the first level, leaves the second alone, and loses no other key but the one it reports |
| Lru2Bucket.ReadOwn | store/lru2.go:111-163 | a hit is unexpired at the time of the read and left in the second level; a miss on an expired first-level copy removes both copies |
| Lru2Bucket.ReadOther | store/lru2.go:129-132 | a Get changes no other key, except that a promotion may drop and report one second-level entry |
| Lru2Bucket.ReportedIs | store/lru2.go:494-511 | a removal reports the first-level value if live and not nil, else the second-level one, else nothing |
| Lru2Bucket.ReadReports | store/lru2.go:111-163 | a Get reports the second-level value of a key it finds expired, the live entry a promotion overwrites, and otherwise nothing |
| Lru2Bucket.RemovedLookup | store/lru2.go:494-511 | delete removes a key from both levels and changes no other key |
| Lru2Bucket.RemovedHolds | store/lru2.go:494-511 | afterwards exactly the other keys are held, and their callbacks are unaffected |
| Lru2Bucket.ExpiredIff | store/lru2.go:529-553 | a tick collects, each once, exactly the keys with an expired copy in either level |
| Lru2Bucket.SweptLookup | store/lru2.go:523-561 | a tick removes both copies of a key as soon as one has expired and leaves every other key as it was |
| Lru2Bucket.PurgedReports | store/lru2.go:556-570 | one callback for each removed key that has a non-nil value, unaffected by the other removals |
| Lru2Bucket.GatheredIff | store/lru2.go:223-236 | the collected keys are those already there and all live keys of both levels, without repetition |
| Lru2Bucket.SizeCount | store/lru2.go:252-265 | the size of a bucket is the number of live slots of both levels |
| Lru2Bucket.SizeZero | store/lru2.go:249-268 | a bucket counts zero entries exactly when it holds no key |
| Lru2Shard.Shard.Read | store/lru2.go:106-163 | the two linked lists, result and callback are those of the bucket function, on every path |
| Lru2Shard.Shard.Write | store/lru2.go:189-194 | likewise for a Set, keeping deleted first-level entries last |
| Lru2Shard.Shard.Remove | store/lru2.go:494-511 | likewise for delete, with the value of the first level preferred |
| Lru2Shard.Shard.Sweep | store/lru2.go:528-570 | likewise for one cleanup round |
| Lru2Store.Store.constructor | store/lru2.go:52-93 | for all options: the store is usable exactly with at most 32768 buckets and capacities below 65535, the 16-bit sums wrapping otherwise; then it is empty, with a power-of-two number of buckets that share no memory |
| Lru2Store.Store.Get | store/lru2.go:101-164 | reads in the home bucket, every other bucket is untouched, and each key stays in its home bucket |
| Lru2Store.Store.SetWithExpiration | store/lru2.go:174-197 | writes in the home bucket with the saturated deadline, every other bucket untouched |
| Lru2Store.Store.Set | store/lru2.go:167-169 | the same without expiry |
| Lru2Store.Store.Delete | store/lru2.go:201-212 | reports whether either level held the key, and afterwards neither does |
| Lru2Store.Store.Clear | store/lru2.go:216-246 | afterwards no key is held; the callbacks are exactly one for each key that had a non-nil value |
| Lru2Store.Store.Len | store/lru2.go:249-268 | the live entries of both levels of all buckets |
| Lru2Store.TotalReplaced | store/lru2.go:249-268 | each bucket counts by its own size, whatever the others hold |
| Lru2Store.Store.EmptyStore | store/lru2.go:249-268 | the length is zero exactly when no key is held |
| Lru2Store.Store.Tick | store/lru2.go:523-571 | every bucket is swept once and its callbacks are those of that sweep |
| Lru2Coherence.Coherence | store/lru2.go:101-212 | over all runs: a hit is served from one definite Set of the key, not expired, no Delete since, and it is the latest Set exactly when the key has not been spilled since |
| Lru2Coherence.CallbackLatest | store/lru2.go:201-212 | over all runs, for a key held, not spilled and last set to a value, a Delete, or a tick that removes it, reports that value |
| Lru2Coherence.SpilledBy | store/lru2.go:388-400 | a key becomes spilled exactly by a Set of another key overwriting its live first-level entry, and ceases by a Set of its own |
| Lru2Coherence.StaleRead | store/lru2.go:142-189 | a run of four operations after which a Get returns the older of two values |
| Lru2Coherence.NoResurrection | store/lru2.go:101-212 | a key held by neither level misses until it is Set again, over all runs and slot reuses |
| Lru2Coherence.StepHolds | store/lru2.go:101-212 | only a Set of the key makes it held; a Delete, or a Get that finds its first-level copy expired, makes it not held |
| Lru2Coherence.EvictionOrder | store/lru2.go:380-444 | in every reachable bucket the live first-level entries are ordered by their latest Set, newest first |
| Lru2Coherence.OldestSetEvicted | store/lru2.go:388-400 | over all runs, room is made by dropping the key Set least recently, and a live entry only when no deleted slot is left |
| Lru2Coherence.TouchedDeadLast | store/lru2.go:424-430 | get keeps deleted entries last exactly when the key is absent or live, or nothing is live |
| Lru2Coherence.TouchBreaksOrder | store/lru2.go:424-430 | a read of a deleted key puts it in front of a live one |
| Lru2Recency.GetOrder | store/lru2.go:111-160 | in every reachable bucket the live second-level entries are ordered by the latest Get of their keys, newest first |
| Lru2Recency.LeastReadEvicted | store/lru2.go:129-132 | over all runs, the live entry a promotion drops is the one read least recently |
| Lru2Recency.ScanResistant | store/lru2.go:17-25 | however many keys are stored, and read without being found in the first level, a second-level entry stays until it is deleted or expires |
| Lru2Recency.DeletedOutlivesLive | store/lru2.go:424-427 | a run of six operations after which a promotion drops a live entry although a deleted one is there |
| Lru2Coherence.Independent | store/lru2.go:101-212 | in a run of the whole store each bucket ends as if its own operations had run alone |
| RingSpec.LabelInjective | consistenthash/consistenthash.go:184-189 | labels of different virtual nodes differ, whatever dashes node names contain |
| RingSpec.InjectiveHashCollisionFree | consistenthash/consistenthash.go:184-189 | a hash without collisions on labels gives every virtual node its own point |
| RingSpec.RingUnique | consistenthash/consistenthash.go:88-139 | without collisions, sorted points and owners are determined by the replica counts alone |
| RingSpec.OwnerIs | consistenthash/consistenthash.go:184-189 | every virtual node's point is on the ring and belongs to its node |
| RingRoute.MinimalDisruption | consistenthash/consistenthash.go:88-194 | adding or enlarging a node moves keys only to it; removing or shrinking it moves only its own keys |
| RingRoute.RouteUnique | consistenthash/consistenthash.go:151-179 | a key routes to at most one node |
| RingRoute.SuccessorNearest | consistenthash/consistenthash.go:165-172 | the binary search with wrap-around finds the nearest point clockwise |
| RingRoute.SuccessorRoutes | consistenthash/consistenthash.go:165-178 | on a canonical ring that point has an owner, the node the key routes to |
| RingRoute.AddCanonical | consistenthash/consistenthash.go:184-194 | the points appended for a node without virtual nodes complete a canonical ring |
| RingRoute.RemoveCanonical | consistenthash/consistenthash.go:124-137 | the in-place removals leave the canonical ring of the other nodes, still sorted |
| RingRoute.SortCanonical | consistenthash/consistenthash.go:105-107 | sorting keeps a ring canonical |
| RingMap.Search | consistenthash/consistenthash.go:165-167 | splits the sorted points at the first one not below the hash |
| RingMap.Map.AddNode | consistenthash/consistenthash.go:184-194 | points, owners, replica count and counter after the append loop; an existing counter is kept |
| RingMap.Map.Add | consistenthash/consistenthash.go:88-108 | an empty call fails; otherwise the non-empty names are placed in turn and the points sorted |
| RingMap.Map.Remove | consistenthash/consistenthash.go:111-139 | fails exactly for the empty name and a node without replicas; otherwise each of its points is deleted once |
| RingMap.Map.Get | consistenthash/consistenthash.go:151-179 | counts one request for the chosen node; on a canonical ring it is the node the key routes to, never a missing entry |
| RingMap.Map.RebalanceNodes | consistenthash/consistenthash.go:249-289 | the body without its locking: every node gets the replica count its load asks for, all counters are reset, and a canonical ring stays canonical and sorted |
| RingMap.Map.CheckAndRebalance | consistenthash/consistenthash.go:206-234 | with that body: rebalances exactly when 1000 requests were seen and some counter is above (1 + threshold) or below (1 - threshold) times the average; otherwise nothing changes |
| RingMap.DeviationIff | consistenthash/consistenthash.go:222-225 | the relative deviation exceeds a threshold exactly when the counter is outside that band |
| RingMap.Map.MaxDeviation | consistenthash/consistenthash.go:218-228 | the maximum exceeds the threshold exactly when some node's deviation does |
| RingLocked.LockedMap.RebalanceNodes | consistenthash/consistenthash.go:245-290 | with the lock: never returns, and keeps the lock, exactly when the lock is taken or some named node is to be resized; otherwise it only resets the counters, and every named node's count is within the range |
| RingLocked.LockedMap.CheckAndRebalance | consistenthash/consistenthash.go:206-234 | with the lock: never returns exactly when, after 1000 requests, the lock is taken or the ring is unbalanced and some node is to be resized |
| RingLocked.LockedMap.Remove | consistenthash/consistenthash.go:111-139 | with the lock: the empty name fails at once, any other call waits for ever while the lock is held, and removes the node otherwise |
| RingLocked.LockedMap.Add | consistenthash/consistenthash.go:88-108 | with the lock: waits for ever while it is held, and adds the nodes otherwise |
| RingLocked.LockedMap.Get | consistenthash/consistenthash.go:151-179 | with the lock: waits for ever while it is held, and routes and counts otherwise |
| RingLocked.MovesIff | consistenthash/consistenthash.go:252-273 | a node in range is to be resized exactly when it is overloaded and above the minimum, or below the maximum with at least one whole virtual node due |
| RingLocked.Overloaded | consistenthash/consistenthash.go:206-290 | for every collision-free hash and every key, 1000 requests for it on two fresh nodes make the check, and every later request, wait for ever |
| RingRuns.RunOk | consistenthash/consistenthash.go:88-290 | every run of additions of absent nodes, removals and resizings keeps the ring canonical and sorted |
| RingRuns.HistoryIrrelevant | consistenthash/consistenthash.go:88-290 | two such histories with equal replica counts end in equal points and owners |
| RingRuns.ResizeOk | consistenthash/consistenthash.go:273-279 | taking a node off and putting it back with another count keeps the ring canonical |
| RingRuns.JoinedNodes | consistenthash/consistenthash.go:88-108 | after an Add the names have the default count, other nodes what they had, and known nodes keep their counters |
| RingRuns.LeftNodes | consistenthash/consistenthash.go:119-137 | after a Remove exactly that node is gone, counter included, if it had virtual nodes |
| RingRuns.JoinThenLeave | consistenthash/consistenthash.go:88-139 | adding a new node and removing it restores the ring exactly |
| RingRuns.JoinExact | consistenthash/consistenthash.go:88-108 | adding a node keeps the ring canonical exactly when it had no virtual nodes |
| RingCollisions.RemovalDangles | consistenthash/consistenthash.go:124-134 | a removal leaves a point without owner exactly when the ring holds that point more often than the removed node does |
| RingCollisions.SharedPointDangles | consistenthash/consistenthash.go:88-139 | on a ring made by adding different nodes, exactly when the removed node shares the point with another one |
| RingCollisions.DroppedCounts | consistenthash/consistenthash.go:125-134 | the nested loops take each point of the node off the ring once, however often it occurs |
| RingCollisions.Collide | consistenthash/consistenthash.go:111-179 | two nodes on one point, one of them removed: every request finds a nil counter |
| RingRuns.DuplicateDangles | consistenthash/consistenthash.go:125-134 | a node added twice and removed once leaves points without owner |
| RingRuns.RunCounts | consistenthash/consistenthash.go:88-290 | over any run under one configuration, with or without collisions, every replica count is the default or within the range, and without a positive default there are no points |
| RingRuns.ReachedInRange | consistenthash/consistenthash.go:265-279 | on every ring with points that one configuration leads to, the lock-free rebalancing body leaves every node within the range |
| RingRuns.TargetShare | consistenthash/consistenthash.go:254-271 | the target is cur * avg / cnt for an overloaded node and cur * (2 - cnt / avg) for any other, rounded down and brought into the range |
| RingRuns.ResizedDirection | consistenthash/consistenthash.go:254-271 | a node in range never grows when overloaded and never shrinks when idle |
| SingleFlight.StepInv | singleflight/singleflight.go:63-94 | every atomic step, the panic path included, keeps entries owned by calls between Store and Delete |
| SingleFlight.StepBound | singleflight/singleflight.go:63-94 | every step keeps the calls in flight for a key at most one more than the Stores that replaced an entry |
| SingleFlight.RunInv | singleflight/singleflight.go:63-94 | both, over every interleaving of any number of callers and keys |
| SingleFlight.AloneIff | singleflight/singleflight.go:65-88 | calls of a key never overlap between Store and Delete exactly when no Store of it replaced an entry |
| SingleFlight.DoubleRun | singleflight/singleflight.go:65-74 | two callers that both Load before either Stores both run fn |
| SingleFlightRuns.NeverTwiceIff | singleflight/singleflight.go:65-92 | over any run, two callers of a key run fn at the same time exactly when some Store of it is made while another caller runs fn for it |
| SingleFlightRuns.MergesIff | singleflight/singleflight.go:49-94 | over any run, every caller that enters Do or has missed while a call of its key is in flight ends up with the result of that call, exactly when no caller is between Load and Store during another call |
| SingleFlightRuns.StepEntry | singleflight/singleflight.go:63-94 | while that condition holds, the map entry of a key is its only call in flight |
| SingleFlightRuns.SharesForever | singleflight/singleflight.go:65-69 | a caller that has found a call is bound to its result for good |
| SingleFlightRuns.OwnForever | singleflight/singleflight.go:71-94 | a caller that has found none ends with the result of its own call |
| SingleFlightRuns.SecondRun | singleflight/singleflight.go:49-94 | a run without replaced entries in which two overlapping callers both execute fn |
| SingleFlightRuns.QuietOverlap | singleflight/singleflight.go:65-88 | a run with a replaced entry in which fn never runs twice at a time |
| SingleFlight.FinishedResult | singleflight/singleflight.go:63-94 | a finished caller has exactly the outcome of one completed call for its own key; waiters see a panic as an error |
| SingleFlight.Quiescent | singleflight/singleflight.go:79-88 | with nobody inside Do the map is empty |
| SingleFlight.Progress | singleflight/singleflight.go:63-94 | while a caller is unfinished some caller can step |
| SingleFlight.RunFinite | singleflight/singleflight.go:63-94 | every run has a length bounded by a measure of its start |
| SingleFlight.AllFinish | singleflight/singleflight.go:63-94 | a run that cannot be continued has finished every caller and emptied the map |
| SingleFlight.Arrival | singleflight/singleflight.go:63-74 | callers may arrive at any time |
| ByteLruSpec.EvictedMeaning | store/lru.go:205-223 | eviction leaves nothing expired, stays within a positive limit, and keeps the unexpired entries in order minus the shortest prefix that makes them fit |
| ByteLruSpec.BoundAfterWrite | store/lru.go:138-175 | the limit holds after a write exactly when the key was new or the change in length leaves it so |
| ByteLruSpec.UpdateOverflows | store/lru.go:157-163 | an update that leaves the store one byte over its limit |
| ByteLruSpec.NewEntrySurvives | store/lru.go:165-175 | a new entry survives its own write exactly when it fits alone and has not expired |
| ByteLruSpec.WrittenInv | store/lru.go:138-175 | list and index stay inverse, only stored keys expire, and the byte count stays exact |
| ByteLruSpec.WrittenValues | store/lru.go:138-175 | after a write its key has the new value, if it is stored, and every other key keeps its value or, for a new key, is evicted; nil only removes |
| ByteLruSpec.DeletedValues | store/lru.go:192-201 | a deletion removes its key and changes no other value |
| ByteLruSpec.EvictedValues | store/lru.go:205-223 | eviction changes no value, it keeps a key or drops it |
| ByteLruSpec.ClearedEmpty | store/lru.go:239-242 | nothing is stored, nothing expires and no byte is used afterwards; the limit stays |
| ByteLru.StoredPairs | store/lru.go:233-236 | the listed pairs are the stored keys with their values, each once |
| ByteLru.Cache.Lookup | store/lru.go:92-112 | the first phase misses, finds the key late, or hits with its element and value |
| ByteLru.Cache.Touch | store/lru.go:117-122 | the second phase moves a listed element to the back if the key is still stored |
| ByteLru.Cache.RemoveElement | store/lru.go:179-189 | list, index, expiry and bytes lose exactly this entry, which is reported: stored and reported entries together are conserved |
| ByteLru.Cache.Delete | store/lru.go:192-201 | the same for a key, reporting whether it was stored |
| ByteLru.Cache.Evict | store/lru.go:205-223 | for any order of the expiry map the loops end in the evicted state, with conservation |
| ByteLru.Cache.SetWithExpiration | store/lru.go:138-175 | nil deletes, a known key is rewritten without eviction or report, a new key is pushed and the store evicted; stored and reported entries together gain exactly the new pair |
| ByteLru.Cache.Clear | store/lru.go:227-243 | list, index, expiry and byte counter are empty, the limit stays, and exactly the stored pairs were reported |
| ByteLru.Cache.UpdateExpiration | store/lru.go:317-332 | only the deadline of a stored key changes |
| ByteLru.Cache.SetMaxBytes | store/lru.go:349-357 | the new limit is installed and, when positive, enforced at once |
| ByteLruRuns.RunSound | store/lru.go:91-243 | over any interleaving of two-phase Gets with writers the store stays sound and stale elements keep their key |
| ByteLruRuns.SecondPhase | store/lru.go:116-122 | a second phase reorders at most its own element and does not revive a removed one |
| ByteLruRuns.DropEffect | store/lru.go:100-107 | the deletion of an expired key removes whatever is stored under it by then and nothing else |
| ByteLruRuns.RunDeadline | store/lru.go:91-243 | over any run, a key still stored has the deadline of its last renewal, or was stored before with the deadline it had |
| ByteLruRuns.RunValue | store/lru.go:91-243 | over any interleaving, a stored key has the value last set for it |
| ByteLruRuns.HitIsLastSet | store/lru.go:92-112 | the value the first section of a Get reads is the one last set |
| ByteLruRuns.ClearedMisses | store/lru.go:227-243 | after a Clear every key is missed until it is set again |
| ByteLruRuns.DeletedMisses | store/lru.go:192-201 | after a Delete its key is missed until it is set again |
| ByteLruRuns.LimitHolds | store/lru.go:165-223 | after a tick, a positive new limit and the write of a new key a positive limit holds and nothing overdue is left |
| ByteLruRuns.LosesIff | store/lru.go:91-107 | the deletion of a key found expired removes an unexpired entry exactly when the key is stored by then and its last renewal between the phases still holds |
| ByteLruRuns.UseOrder | store/lru.go:91-243 | over any interleaving the list is ordered by last use, a write or a second phase that found the entry listed |
| ByteLruRuns.OldestEvicted | store/lru.go:205-223 | over any interleaving, every unexpired entry that eviction drops was last used before every entry it keeps |
| ByteLruRuns.LostUpdate | store/lru.go:100-107 | a run in which that deletion removes a newer value |
| LifecycleUse.EveryOperationServed | cache.go:103-318 | over any interleaving, an operation that has ended has called the store exactly when: Add, never found the cache closed; AddWithExpiration, neither that nor a passed deadline; Get, Delete, Len and Clear, found it initialized and never closed |
| LifecycleUse.ClosedNoUse | cache.go:150-292 | once the cache is closed no thread begins to use the store |
| Lifecycle.StepInv | cache.go:103-318 | every step of every thread keeps lock ownership, the flags and the store consistent |
| Lifecycle.Safety | cache.go:103-318 | over every interleaving: a thread about to use the store finds one and holds its lock; at most one store is created; after Close it is closed exactly once |
| Lifecycle.ShutForever | cache.go:297-318 | after Close has completed no store is created or closed any more |
| Lifecycle.Progress | cache.go:103-318 | while some thread has not ended some thread can step |
| Lifecycle.RunFinite | cache.go:103-318 | every run has a length bounded by a measure of its start |
| Lifecycle.AllEnd | cache.go:103-318 | a run that cannot be continued has ended every thread, freed the lock and, if closed, shut the cache |
| GroupGet.StepTrue | group.go:183-368 | every event of the composed system keeps all cached, shared and pending values equal to the source's |
| GroupGet.RunTrue | group.go:183-368 | the same over every run |
| GroupGet.Transparency | group.go:183-368 | every value a Get returns is the source's value of its key; if in every load the peer or the getter answers, every Get of an open group and non-empty key returns one |
| GroupLoad.OwnLoadDecides | group.go:313-368 | over any run, a caller whose fn ends with an answer of the peer gets that answer whatever the getter does, and otherwise the getter's bytes, its own error or its panic |
| GroupLoad.LoadDecides | group.go:313-368 | the same for every caller that shared the call, to which a panic comes as an error |
| GroupLoad.AnswerOrigin | group.go:313-368 | every Get that left the loader has what one definite end of fn brought |
| GroupFresh.LogBucket | store/lru2.go:101-212 | each bucket of the group ends as the operations that events of the group made on it leave it |
| GroupFresh.Freshness | group.go:183-340 | over any run, without a fixed source: a hit is served from one definite Set or write-back, not expired, no Delete since the last of them, and it is the last exactly when the key has not been spilled since |
| GroupFresh.LatestSetSeen | group.go:209-340 | for a key not spilled, a hit returns the value of the latest Set exactly when the last write-back after it, if any, stored the same value |
| GroupFresh.SetSettles | group.go:209-340 | if no Get of the key is past its cache miss at the Set and every later lookup of the key hits, no write-back follows and unspilled hits return the value set |
| GroupKept.StaysSettled | group.go:183-340 | over any run without deletion, expiry or drop of the key after the Set, the key stays stored and unspilled and no Get of it can write back |
| GroupKept.SetKept | group.go:183-340 | under these conditions on events alone, every Get the cache is asked for is answered with the value set |
| GroupKept.KeepsHolds | store/lru2.go:101-212 | an operation that neither deletes a key, finds it expired nor drops it keeps it stored, and a Get of it hits |
| GroupWitness.OldValueFound | group.go:183-340 | a run of ten events from any new group after which a Get finds a value older than the latest Set |
| GroupWitness.NewValueFound | group.go:183-340 | a run with two write-backs after the Set, the first of another value, after which a Get finds the value set |
| GroupWitness.Fetches | group.go:183-340 | a Get that misses runs through lookup, load and collection up to its write-back and leaves the cache as it was |
| GroupByteLru.StepTrue | group.go:183-368 | over the byte-bounded store, every event, the second section of a Get included, keeps all cached, shared and pending values equal to the source's |
| GroupByteLru.Transparency | group.go:183-368 | over the byte-bounded store, every value a Get returns is the source's value of its key; if in every load the peer or the getter answers, every Get of an open group and non-empty key returns one |
| GroupReplies.DeletedLoads | group.go:183-268 | over any run, after a Delete that reaches the cache and until something is stored under the key again, every Get of it misses and loads |
| GroupReplies.TickedLoads | store/lru2.go:523-571 | after a tick that finds a copy of a key expired the next Get of it misses and loads |
| GroupReplies.ClosedRefuses | group.go:183-309 | over any run, after Close every new Get is refused and no new Set or Delete changes anything |
| GroupReplies.ClosedCacheLoads | cache.go:150-255 | over any run, after the cache is closed every lookup under way loads and nothing touches the store |
| GroupReplies.OpenAccepts | group.go:183-194 | in an open group a Get is refused only for the empty key |
| GroupByteLru.AddedFound | cache.go:191-239 | over the byte-bounded store, a value added is found by the next Get exactly when its deadline has not passed and its own write did not evict it |
| GroupByteLru.SetFound | group.go:209-242 | the same for a Set in an open group |
| GroupByteLru.WriteBackFound | group.go:330-339 | a write-back answers its Get and is found by the next one under the same conditions |
| GroupByteLru.ClosedRefuses | group.go:183-309 | over the byte-bounded store, closing refuses new Gets and leaves the store alone, and an open group refuses only the empty key |
| GroupByteLru.FoundReturned | store/lru.go:109-124 | the value read in the first section is returned whatever happens before the second |
| GroupByteLru.RemovedLoads | group.go:245-279 | after a Delete or a Clear the next Get of the key loads |
| GroupByteLru.TickClears | store/lru.go:205-223 | a tick or a positive limit removes what has expired and enforces the limit |
| GroupProgress.RunLinked | group.go:183-340 | over any run callers are inside the loader exactly when they wait for it |
| GroupProgress.Progress | group.go:183-340 | while some Get is unanswered some Get can step |
| GroupProgress.RunFinite | group.go:183-340 | without new arrivals the Gets take a bounded number of steps, whatever Sets, Deletes and ticks come in between |
| GroupProgress.AllReply | group.go:183-340 | when no Get can step any more, all are answered |
| GroupGet.RestoredByWriteBack | group.go:330-339 | a second write-back can bring the value of the Set back, so only the last one matters |
| GroupGet.LateWriteBack | group.go:330-339 | a write-back after a newer Set replaces its value |
| ShortCode.Base62Encode | examples/shortlink/shortcode.go:23-43 | decoding the code gives the big-endian number back; at least eight digits, padded no further, at most eleven for eight bytes |
| ShortCode.LowDigits | examples/shortlink/shortcode.go:29-32 | the division loop writes the number, lowest digit first, without leading zero |
| ShortCode.ReverseInPlace | examples/shortlink/shortcode.go:38-40 | swapping from both ends reverses the array |
| ShortCode.DecodeRev | examples/shortlink/shortcode.go:29-40 | reversing turns lowest-first into highest-first notation |
| ShortCode.BigEndianConcat | examples/shortlink/shortcode.go:24 | earlier bytes weigh more: the number of a concatenation is that of the first part shifted by the second, plus the second |
| ShortCode.DecodeConcat | examples/shortlink/shortcode.go:29-42 | the same for digits |
| ShortCode.CodeOfOne | examples/shortlink/shortcode.go:23-43 | the code of seven zero bytes and a one is "00000001" |
| ShortCode.LengthBound | examples/shortlink/shortcode.go:27-36 | the code of eight bytes has at most eleven digits |
| ShortCode.Injective | examples/shortlink/shortcode.go:23-43 | inputs of one length with the same code are equal |
| ShortCode.Unique | examples/shortlink/shortcode.go:23-43 | every input has only one code |

## Left out

- Lru2Store.Store.Get: one thread works on a store at a time; the per-bucket locks are covered by `Lru2Coherence.Independent`. A store made with options too large is shown unusable, and its later operations are not modelled.
- Lru2Store.Store.Clear: the collection and the deletions run without other threads in between; the deletions a concurrent run would interleave are events of `Lru2Coherence`.
- Lru2Store.Store.Tick: the callbacks of one bucket are listed in deletion order, where the program leaves their order open.
- RingMap.Map.RebalanceNodes: the body without its locking, for what it computes; with the lock it never resizes anything, which `RingLocked.LockedMap.RebalanceNodes` states. One visit per node; real arithmetic for the load ratios.
- RingMap.Map.CheckAndRebalance: as `RingMap.Map.RebalanceNodes`; nothing happens between the check and the rebalancing, where the program gives up the read lock.
- RingRuns.RunOk: assumes that the hash has no collision among the labels in use and that additions name absent nodes; `RingCollisions.SharedPointDangles` and `RingRuns.JoinExact` show that both are needed.
- ByteLruRuns.RunSound: excludes Clear between the two phases of a Get, as the lock of the cache shell does; the byte counter and times are unbounded integers.
- SingleFlight.AllFinish: fn ends and does not call Do again for a key it is loading.
- Lifecycle.AllEnd: the lock admits any order of waiting threads; preference for writers is not modelled.
- GroupGet.Transparency: for the LRU-2 store; `GroupByteLru.Transparency` is for the byte-bounded one. The promise is made for a fixed source; `GroupFresh` and `GroupKept` treat the case without one, over the LRU-2 store.
- Singleflight, the cache shell, the group and the readers of the byte-bounded store are step machines on values: aliasing and torn reads below the atomic steps are not captured.
- ByteLru.Cache.RemoveElement: the callback is recorded in a log. The program issues it while the write lock is held (store/lru.go:179-189), although store/lru.go:49 says outside the lock, so a callback that uses the store never returns; callbacks that use the store are not modelled.
- Hash functions are parameters (CRC32, HMAC-SHA256); generateShortCode and createCollisionSafeCode only call one.
- Counters of requests and hits are unbounded integers.
- The self-adjusting clock and the tickers: readings are arguments, and not negative.
- Peers and the getter are an environment that answers with a value, an error or a panic; gRPC, etcd registration and the peer picker are not part of this model.
- GetWithExpiration, GetExpiration, Stats, options, logging, the byte-view copies, the group registry and the synchronisation of writes to peers.
