# A verified model of the libcuckoo hash table

The repository vendors libcuckoo, a concurrent cuckoo hash table. Every key has two candidate buckets; an insertion into two
full buckets searches breadth-first for a chain of displacements that frees a slot; the table doubles when there is none; after
a doubling of a big table its data moves stripe by stripe, whenever a lock is taken. Many threads work on it at once, under
striped spinlocks in a growing list of lock arrays. This project models that table and proves it correct at three levels.

**Values.** `Hashing`, `Mixing`, `Rows`, `Doubling`, `Lazy`, `Locks`, `State` and `Counting` describe candidate buckets, tables of buckets,
what it means for them to stand for a map, and every elementary change. `Split` is the state a lazy doubling is spread over; its
`Effective` table is the one it would be if everything were migrated, and it is this table that stands for the map. Old buckets
under migrated locks are ignored, as `move_bucket` leaves their contents behind. `PathCode`, `Paths`, `Frontier`, `Records` and
`PathSearch` are about the search: the 16-bit path code, shortest paths, the queue and its bound, the records a path is stored
in, and the search as a sequence of looks at buckets that may change between any two of them. Table size, slots per bucket (1
to 8), number of locks (any power of two), keys, values and the hash function are parameters.

**One thread.** `Container`, `Mover`, `Migration`, `Scan` and the class `CuckooHashMap` in `CuckooMap` are the algorithm as it is
written, with arrays and loops, when no other thread interferes. `Now()` is everything the fields hold, as one value (`Snap`), and
`model` is the map. Methods that only lock promise `Since`: nothing but migration has happened. Displacements promise `After`: the same
map in perhaps other slots. Operations that may resize promise `Grown`. `Shrinking` is about tables that come out of a resize
as big as they were, `Endless` about keys that no table has a place for. `LockedTables` and `Traversal` add iteration and
comparison under a lock on the whole table. The mode of a call is the source's `TABLE_MODE`.

**Any number of threads.** `Protocol` is a machine of atomic steps for any number of threads, each at one of 21 places of the
program: reading the hashpower, fetching the lock array, spinning on one lock, checking the hashpower, migrating, decrementing the lazy
counter, freeing, the critical sections, the search with its queue, the displacements, `lock_all`, appending a lock array,
publishing a doubled table, and releasing lock by lock. Nothing is assumed of a search that runs beside other threads: its
queue, its path codes and its records are part of the place where its thread is. `Exclusion` has the invariant, `Steps` shows
that every step keeps it, `Guarantees` draws the conclusions, `Progress` shows that the machine never gets stuck, `Runs` and
`Alone` follow a thread that nobody disturbs, `Overtaking` settles for which tables exclusion holds, `Retry` follows operations
whose table has changed under them and those that fail, and `Upkeep` accounts for locks and old buckets. `Interface` says what
the operations a user calls are in the machine, and that their effects there are those of the class for one thread.

## Where the code does not do what it says

- The compile-time check of the path code requires `s^5 < 65535`, but a code also carries the root: paths survive packing exactly
  when `2 * s^5 <= 65536`, that is for at most eight slots (`PathCode.RoundTripsExactly`). Nine slots pass the check
  (`PathCode.NineSlotsPassTheCheckButWrap`). The default is four.
- `AllUnlocker` releases a lock array and only then compares its position with the end of the list. Between the release of the
  last lock and that comparison another thread can lock the table and append a lock array, whose locks are then released although
  they are not the first thread's. With two or more threads, and more keys than the new table has slots, exclusion holds along
  all runs if and only if the table is created with at least as many buckets as there can be locks
  (`Overtaking.ExclusionExactly`); the proof gives the run for every smaller table. On it the first thread fills the table, is
  refused a doubling by an exception and is about to compare; the second goes on to double. The limits that decide about the
  exception can be set at any time (`cuckoohash_map.hh:373-410`). A step breaks the invariant of the protocol exactly when it is
  such a comparison (`Steps.StepKeepsExactly`), and along all other runs everything holds.
- `rehash` and `reserve` are documented (`cuckoohash_map.hh:669-690`) to return true if the table changed size and false
  otherwise. The code returns whether a rebuild was asked for and went through. That is right whenever the table is not asked to
  shrink, and false always means unchanged (`Snapshot.ResizeFlag`, which `Rehash` and `Reserve` promise). When it is asked to
  shrink, true is wrong if the table comes out at the size it had. For a table of two buckets that happens exactly if it holds
  more pairs than one bucket has slots (`Shrinking.ShrinksInVain`, with tables in `Shrinking.CrowdedExists`); any table with more
  pairs than half its slots comes out no smaller (`Snapshot.RebuiltFlag`).

## Model

| member | source | states |
|---|---|---|
| Hashing.AltIndexInvolution | uav-rf-detector-backend/core/extern/include/libcuckoo/cuckoohash_map.hh:787-798 | the alternate of the alternate of any bucket of the table is that bucket again, for every partial key |
| Hashing.AltOfCandidate | uav-rf-detector-backend/core/extern/include/libcuckoo/cuckoohash_map.hh:787-798 | from either candidate bucket of a key, alt_index gives the other one, and both exist |
| Hashing.HomeDoubles | uav-rf-detector-backend/core/extern/include/libcuckoo/cuckoohash_map.hh:1756-1768 | one more bit of hashpower leaves the first candidate where it was or moves it up by exactly 2^hp |
| Hashing.OtherDoubles | uav-rf-detector-backend/core/extern/include/libcuckoo/cuckoohash_map.hh:770-798 | the same for the second candidate, although it is computed from the grown first one: this is what the comment on partial_key asks for |
| Hashing.LockIndDoubles | uav-rf-detector-backend/core/extern/include/libcuckoo/cuckoohash_map.hh:1113-1115 | once there are as many buckets as locks, a bucket and the two buckets it splits into share their lock |
| Hashing.LockIndMod | uav-rf-detector-backend/core/extern/include/libcuckoo/cuckoohash_map.hh:1113-1115 | the lock of a bucket is the remainder of its index by the number of locks |
| Hashing.SharedLock | uav-rf-detector-backend/core/extern/include/libcuckoo/cuckoohash_map.hh:1113-1115 | two buckets share a lock exactly if they leave the same remainder; with no more buckets than locks, none do |
| Mixing.HomeIsLowBits | uav-rf-detector-backend/core/extern/include/libcuckoo/cuckoohash_map.hh:785-789 | the first bucket is the hash modulo the number of buckets, and a hash below that number is its own first bucket |
| Mixing.EveryByteCounts | uav-rf-detector-backend/core/extern/include/libcuckoo/cuckoohash_map.hh:770-783 | changing any one of the eight bytes of a hash by exclusive or changes its partial key by the same byte |
| Mixing.ZeroPartial | uav-rf-detector-backend/core/extern/include/libcuckoo/cuckoohash_map.hh:770-783 | the partial key of 0 is 0, so with the row above every partial key is the exclusive or of the eight bytes |
| Mixing.BucketsCoincide | uav-rf-detector-backend/core/extern/include/libcuckoo/cuckoohash_map.hh:790-797 | the alternate of a bucket is that bucket exactly if the partial key plus one is a multiple of the number of buckets: the tag is nonzero, but its low bits need not be |
| Mixing.TwoBucketsApart | uav-rf-detector-backend/core/extern/include/libcuckoo/cuckoohash_map.hh:790-797 | with 512 buckets or more every bucket differs from its alternate |
| Mixing.AlternatesDiffer | uav-rf-detector-backend/core/extern/include/libcuckoo/cuckoohash_map.hh:790-797 | with 256 buckets or more, different partial keys lead from one bucket to different alternates |
| Container.BucketContainer.SetKV | uav-rf-detector-backend/core/extern/include/libcuckoo/bucket_container.hh:201-212 | writes exactly one empty slot |
| Container.BucketContainer.EraseKV | uav-rf-detector-backend/core/extern/include/libcuckoo/bucket_container.hh:215-220 | empties exactly one live slot |
| Container.BucketContainer.Clear | uav-rf-detector-backend/core/extern/include/libcuckoo/bucket_container.hh:224-239 | erases live slots only, and leaves an empty table of the same size |
| Container.BucketContainer.ClearAndDeallocate | uav-rf-detector-backend/core/extern/include/libcuckoo/bucket_container.hh:243-245 | no storage is left, whether or not there was any |
| Container.BucketContainer.Swap | uav-rf-detector-backend/core/extern/include/libcuckoo/bucket_container.hh:167-182 | exchanges storage and hashpower |
| Container.BucketContainer.Transfer | uav-rf-detector-backend/core/extern/include/libcuckoo/bucket_container.hh:326-349 | nothing for a container without storage; otherwise fresh storage with the same slots, and empty buckets beyond them |
| Rows.Locate | uav-rf-detector-backend/core/extern/include/libcuckoo/cuckoohash_map.hh:1142-1158 | a key of the map is in its first or second bucket, and nowhere else is needed to find it |
| Rows.RepresentsOne | uav-rf-detector-backend/core/extern/include/libcuckoo/cuckoohash_map.hh:1142-1158 | buckets determine the map they stand for |
| Rows.AddPair | uav-rf-detector-backend/core/extern/include/libcuckoo/cuckoohash_map.hh:1295-1300 | writing an empty slot of a candidate bucket adds one pair and keeps placement, partial keys and uniqueness |
| Rows.RemovePair | uav-rf-detector-backend/core/extern/include/libcuckoo/cuckoohash_map.hh:1980-1983 | emptying a live slot removes one key |
| Rows.SetValue | uav-rf-detector-backend/core/extern/include/libcuckoo/cuckoohash_map.hh:488-498 | assigning a stored value changes the map at its key only |
| Rows.DisplaceKeeps | uav-rf-detector-backend/core/extern/include/libcuckoo/cuckoohash_map.hh:1533-1535 | one displacement, into an empty slot of the alternate bucket, leaves the map alone |
| Counting.SizeIsLiveCount | uav-rf-detector-backend/core/extern/include/libcuckoo/cuckoohash_map.hh:334-344 | the size of the map is the number of live slots |
| Counting.SizeWithinCapacity | uav-rf-detector-backend/core/extern/include/libcuckoo/cuckoohash_map.hh:346-353 | no table holds more elements than its capacity |
| Counting.LoadOfTable | uav-rf-detector-backend/core/extern/include/libcuckoo/cuckoohash_map.hh:355-361 | the load factor is the part of the slots that are live: between 0 and 1, and 1 exactly if every bucket is full |
| Doubling.Destination | uav-rf-detector-backend/core/extern/include/libcuckoo/cuckoohash_map.hh:1775-1793 | wherever move_bucket sends a key, it is one of its candidates at the next hashpower |
| Doubling.OriginInjective | uav-rf-detector-backend/core/extern/include/libcuckoo/cuckoohash_map.hh:1756-1800 | every slot of the doubled table is filled from one old slot, and no two from the same |
| Doubling.DoubledRepresents | uav-rf-detector-backend/core/extern/include/libcuckoo/cuckoohash_map.hh:1676-1754 | the doubled table stands for the same map and is well placed at the next hashpower |
| Mover.MovesHigh | uav-rf-detector-backend/core/extern/include/libcuckoo/cuckoohash_map.hh:1779-1793 | the test of move_bucket: where a key ends, it is in one of its candidates at the next hashpower, and a key that fails the test has kept the candidate it is in |
| Mover.MoveBucket | uav-rf-detector-backend/core/extern/include/libcuckoo/cuckoohash_map.hh:1756-1800 | writes only empty slots; afterwards the two new buckets are the two halves of the old one, which stays as it was |
| Migration.MoveStripe | uav-rf-detector-backend/core/extern/include/libcuckoo/cuckoohash_map.hh:961-969 | the loop of rehash_lock fills exactly the new buckets of one lock |
| Migration.MoveAll | uav-rf-detector-backend/core/extern/include/libcuckoo/cuckoohash_map.hh:1736-1742 | the eager loop produces the doubled table |
| Lazy.RehashKeeps | uav-rf-detector-backend/core/extern/include/libcuckoo/cuckoohash_map.hh:953-974 | migrating a stripe leaves the full table as it was, bucket by bucket |
| Lazy.RehashCommutes | uav-rf-detector-backend/core/extern/include/libcuckoo/cuckoohash_map.hh:961-969 | migrations of two stripes commute |
| Lazy.AnyOrder | uav-rf-detector-backend/core/extern/include/libcuckoo/cuckoohash_map.hh:1964-1974 | migrating stripes in any order and with repetitions gives the full table once all are covered |
| Lazy.PublishedDoubles | uav-rf-detector-backend/core/extern/include/libcuckoo/cuckoohash_map.hh:1713-1752 | publishing the new buckets, whether the pairs move now or later, yields the eagerly doubled table |
| Lazy.PutEffective | uav-rf-detector-backend/core/extern/include/libcuckoo/cuckoohash_map.hh:1295-1300 | a write under a migrated lock is the same write in the full table |
| Lazy.FreeKeeps | uav-rf-detector-backend/core/extern/include/libcuckoo/cuckoohash_map.hh:2039-2059 | freeing the old buckets when all stripes have moved loses nothing |
| State.Lookup | uav-rf-detector-backend/core/extern/include/libcuckoo/cuckoohash_map.hh:1002-1018 | after migrating only the stripes of a key's two buckets, the current buckets decide whether the key is in the map |
| State.BucketFacts | uav-rf-detector-backend/core/extern/include/libcuckoo/cuckoohash_map.hh:1163-1175 | a live slot under a migrated lock holds a pair of the map with the right partial key |
| State.GoodAdd | uav-rf-detector-backend/core/extern/include/libcuckoo/cuckoohash_map.hh:1295-1300 | an insertion keeps buckets, map and sum of counters in step |
| State.GoodRemove | uav-rf-detector-backend/core/extern/include/libcuckoo/cuckoohash_map.hh:1980-1983 | so does an erasure |
| State.GoodDisplace | uav-rf-detector-backend/core/extern/include/libcuckoo/cuckoohash_map.hh:1533-1535 | a displacement touches no counter, and the sum stays right |
| State.GoodGrow | uav-rf-detector-backend/core/extern/include/libcuckoo/cuckoohash_map.hh:1836-1851 | so does replacing the locks by more of them |
| State.GoodPublish | uav-rf-detector-backend/core/extern/include/libcuckoo/cuckoohash_map.hh:1713-1752 | publishing a doubled table keeps map and counters and doubles the full table |
| PathCode.DecodeEncode | uav-rf-detector-backend/core/extern/include/libcuckoo/cuckoohash_map.hh:1423-1426 | taking the slots off a path code returns the slots that were packed and leaves the root |
| PathCode.EncodeBound | uav-rf-detector-backend/core/extern/include/libcuckoo/cuckoohash_map.hh:1552-1578 | at depth d the code is below 2 * s^d |
| PathCode.NeverWraps | uav-rf-detector-backend/core/extern/include/libcuckoo/cuckoohash_map.hh:1552-1578 | if 2 * s^5 fits in 16 bits no step of the encoding wraps |
| PathCode.RoundTripsExactly | uav-rf-detector-backend/core/extern/include/libcuckoo/cuckoohash_map.hh:1552-1578 | paths survive packing for every root and slots if and only if 2 * s^5 fits in 16 bits |
| PathCode.NineSlotsPassTheCheckButWrap | uav-rf-detector-backend/core/extern/include/libcuckoo/cuckoohash_map.hh:1560-1563 | with nine slots the compile-time check passes, but some path does not survive packing |
| Paths.CutLoop | uav-rf-detector-backend/core/extern/include/libcuckoo/cuckoohash_map.hh:1633-1669 | cutting a loop out of a path leads to the same bucket |
| Paths.ShortestVisitsOnce | uav-rf-detector-backend/core/extern/include/libcuckoo/cuckoohash_map.hh:1633-1669 | a shortest path to a free slot visits no bucket twice |
| Paths.CarryOneBack | uav-rf-detector-backend/core/extern/include/libcuckoo/cuckoohash_map.hh:1478-1543 | on a route without repeated buckets each displacement succeeds and prepares the one before it |
| Frontier.NoneShallower | uav-rf-detector-backend/core/extern/include/libcuckoo/cuckoohash_map.hh:1633-1669 | everything less deep than the unexpanded entries of the queue has been looked at |
| Frontier.SearchSucceeds | uav-rf-detector-backend/core/extern/include/libcuckoo/cuckoohash_map.hh:1633-1669 | the path returned is a shortest one |
| Frontier.SearchFails | uav-rf-detector-backend/core/extern/include/libcuckoo/cuckoohash_map.hh:1633-1669 | the search fails only if every bucket within four displacements is full |
| Frontier.FoundRefutesFailure | uav-rf-detector-backend/core/extern/include/libcuckoo/cuckoohash_map.hh:1633-1669 | and it never fails otherwise |
| Frontier.Geometric | uav-rf-detector-backend/core/extern/include/libcuckoo/cuckoohash_map.hh:1596-1620 | the sum of the geometric series behind MAX_CUCKOO_COUNT, as a potential of one entry |
| Frontier.QueueFits | uav-rf-detector-backend/core/extern/include/libcuckoo/cuckoohash_map.hh:1596-1620 | both roots and all that can follow them fill the queue exactly, also for one slot per bucket |
| Frontier.ExpansionFits | uav-rf-detector-backend/core/extern/include/libcuckoo/cuckoohash_map.hh:1648-1663 | whatever bucket is read for an entry, all its children find room in the queue, by a potential that charges every entry for all that can follow it |
| Frontier.PackedDecodes | uav-rf-detector-backend/core/extern/include/libcuckoo/cuckoohash_map.hh:1645-1663 | one more slot packed into a path code never wraps and leaves the root of the path as it was |
| Frontier.EntryExpanded | uav-rf-detector-backend/core/extern/include/libcuckoo/cuckoohash_map.hh:1648-1663 | undisturbed, a full bucket whose children are queued counts as looked at |
| Frontier.Expand | uav-rf-detector-backend/core/extern/include/libcuckoo/cuckoohash_map.hh:1638-1665 | the expansion of one entry, for any contents of its bucket: the first free slot ends it, a bucket without one has all its children queued, and the queue never overflows |
| Frontier.BQueue.Enqueue | uav-rf-detector-backend/core/extern/include/libcuckoo/cuckoohash_map.hh:1581-1624 | appends, given room; the array is never reused |
| Frontier.BQueue.Dequeue | uav-rf-detector-backend/core/extern/include/libcuckoo/cuckoohash_map.hh:1581-1624 | returns the oldest entry |
| Records.DecodePath | uav-rf-detector-backend/core/extern/include/libcuckoo/cuckoohash_map.hh:1423-1426 | fills in the slots of the path from its end and leaves the root |
| Records.NextStop | uav-rf-detector-backend/core/extern/include/libcuckoo/cuckoohash_map.hh:1450-1455 | the bucket recomputed by alt_index is the next bucket of the path found |
| Records.RecordedLinked | uav-rf-detector-backend/core/extern/include/libcuckoo/cuckoohash_map.hh:1442-1463 | the records of an undisturbed search are linked by alternate buckets |
| Records.LinkedNext | uav-rf-detector-backend/core/extern/include/libcuckoo/cuckoohash_map.hh:1442-1463 | so are those of any search: whatever pair is read at a stop, the next stop is computed as its alternate bucket |
| PathSearch.NextOk | uav-rf-detector-backend/core/extern/include/libcuckoo/cuckoohash_map.hh:1410-1467 | whatever bucket a search is shown next, its queue keeps its bound, its path codes keep roots of 0 or 1, and its records stay linked |
| PathSearch.SearchHalts | uav-rf-detector-backend/core/extern/include/libcuckoo/cuckoohash_map.hh:1633-1669 | whatever is done to the buckets between its looks, a search ends after at most MAX_CUCKOO_COUNT + 5 of them, never overflows its queue, and returns a linked path or nothing |
| PathSearch.CanLook | uav-rf-detector-backend/core/extern/include/libcuckoo/cuckoohash_map.hh:1638-1641 | a search that has not ended has a bucket to look at, and it exists |
| PathSearch.UndistractedNext | uav-rf-detector-backend/core/extern/include/libcuckoo/cuckoohash_map.hh:1410-1467 | if the buckets shown are those of one table, there is a shortest path behind what the search finds |
| PathSearch.UndistractedFails | uav-rf-detector-backend/core/extern/include/libcuckoo/cuckoohash_map.hh:1633-1669 | and if it then finds nothing, nothing is within reach |
| Records.CarryingStep | uav-rf-detector-backend/core/extern/include/libcuckoo/cuckoohash_map.hh:1498-1542 | undisturbed, the checks of cuckoopath_move pass at every stop |
| Scan.TryReadFromBucket | uav-rf-detector-backend/core/extern/include/libcuckoo/cuckoohash_map.hh:1163-1175 | the first matching slot, or -1 if none matches |
| Scan.TryFindInsertBucket | uav-rf-detector-backend/core/extern/include/libcuckoo/cuckoohash_map.hh:1302-1327 | false with the slot of the key, else true with the last free slot, or -1 exactly for a full bucket |
| Scan.NotInBucket | uav-rf-detector-backend/core/extern/include/libcuckoo/cuckoohash_map.hh:1163-1175 | with correct partial keys, comparing them first misses no key |
| Guards.SortThree | uav-rf-detector-backend/core/extern/include/libcuckoo/cuckoohash_map.hh:1032-1045 | three compare-and-swaps sort three lock indices |
| Guards.TwoGuardsOwnTheirLocks | uav-rf-detector-backend/core/extern/include/libcuckoo/cuckoohash_map.hh:1002-1018 | two locks are taken in increasing order, and the guards release exactly those, each once |
| Guards.ThreeGuardsOwnTheirLocks | uav-rf-detector-backend/core/extern/include/libcuckoo/cuckoohash_map.hh:1032-1060 | the same for three, whichever coincide |
| Sizing.ReserveCalc | uav-rf-detector-backend/core/extern/include/libcuckoo/cuckoohash_map.hh:2018-2028 | the least hashpower whose capacity holds n |
| Sizing.LoadVanishes | uav-rf-detector-backend/core/extern/include/libcuckoo/cuckoohash_map.hh:1808-1824 | a table that is big enough is emptier than any positive load factor |
| Sizing.LoadSteps | uav-rf-detector-backend/core/extern/include/libcuckoo/cuckoohash_map.hh:355-361 | the load factor of no elements is 0, and every further element adds the same positive amount |
| Sizing.LoadHalves | uav-rf-detector-backend/core/extern/include/libcuckoo/cuckoohash_map.hh:355-361 | it halves when the hashpower grows by one |
| Snapshot.LoadedIs | uav-rf-detector-backend/core/extern/include/libcuckoo/cuckoohash_map.hh:1814-1817 | the load factor suffices exactly if there are at least as many elements as the minimum load factor times the number of slots |
| Sizing.WorkPartition | uav-rf-detector-backend/core/extern/include/libcuckoo/cuckoohash_map.hh:1919-1935 | for every number of workers each item is worked on by exactly one thread, also with fewer items than workers |
| Sizing.WorkBalanced | uav-rf-detector-backend/core/extern/include/libcuckoo/cuckoohash_map.hh:1919-1935 | every worker gets the same number of items, the calling thread also what is left over |
| CuckooMap.CuckooHashMap.constructor | uav-rf-detector-backend/core/extern/include/libcuckoo/cuckoohash_map.hh:104-117 | an empty map in the least table with room for n, with a lock for each bucket up to the greatest number |
| CuckooMap.CuckooHashMap.RehashLock | uav-rf-detector-backend/core/extern/include/libcuckoo/cuckoohash_map.hh:953-974 | one stripe migrated, map and full table unchanged, the count of remaining stripes right; lazily one less remains, and the old buckets are freed with the last one |
| CuckooMap.CuckooHashMap.LockTwo | uav-rf-detector-backend/core/extern/include/libcuckoo/cuckoohash_map.hh:1002-1018 | both buckets may be read and written; their stripes have been migrated and no others |
| CuckooMap.CuckooHashMap.LockThree | uav-rf-detector-backend/core/extern/include/libcuckoo/cuckoohash_map.hh:1032-1060 | the same for three buckets |
| CuckooMap.CuckooHashMap.SnapshotAndLockTwo | uav-rf-detector-backend/core/extern/include/libcuckoo/cuckoohash_map.hh:1069-1082 | the two buckets of the key at the current hashpower |
| CuckooMap.CuckooHashMap.CuckooFind | uav-rf-detector-backend/core/extern/include/libcuckoo/cuckoohash_map.hh:1147-1158 | finds the key's slot exactly if the key is in the map, even while most stripes are not migrated |
| CuckooMap.CuckooHashMap.SlotSearch | uav-rf-detector-backend/core/extern/include/libcuckoo/cuckoohash_map.hh:1626-1669 | without interference: a shortest path to a free slot, or -1 exactly if there is none within reach; room in the queue and the end of the loop come from Frontier.Expand, which holds for any contents |
| CuckooMap.CuckooHashMap.CuckooPathSearch | uav-rf-detector-backend/core/extern/include/libcuckoo/cuckoohash_map.hh:1410-1467 | without interference: the records of a shortest path whose displacements can all be carried out |
| CuckooMap.CuckooHashMap.TryDisplace | uav-rf-detector-backend/core/extern/include/libcuckoo/cuckoohash_map.hh:1512-1535 | moves the pair exactly if slot, free slot and hash are as recorded; the map is unchanged either way |
| CuckooMap.CuckooHashMap.CuckooPathMove | uav-rf-detector-backend/core/extern/include/libcuckoo/cuckoohash_map.hh:1470-1543 | keeps the map for every linked path however stale; succeeds if nothing changed since the search, and then the freed slot is free and both buckets locked |
| CuckooMap.CuckooHashMap.RunCuckoo | uav-rf-detector-backend/core/extern/include/libcuckoo/cuckoohash_map.hh:1339-1406 | frees a slot of one of the two buckets if and only if one can be freed within reach; the loop is left after one round |
| CuckooMap.CuckooHashMap.CuckooInsert | uav-rf-detector-backend/core/extern/include/libcuckoo/cuckoohash_map.hh:1218-1289 | the duplicate, a free slot for the key, or TableFull exactly if the key is new and no slot can be freed; unless both buckets are full nothing is displaced, and the place is the last free slot of the first of them that has one |
| CuckooMap.CuckooHashMap.InsertByCuckoo | uav-rf-detector-backend/core/extern/include/libcuckoo/cuckoohash_map.hh:1254-1282 | its slow path, with the second look for the key |
| CuckooMap.CuckooHashMap.AddToBucket | uav-rf-detector-backend/core/extern/include/libcuckoo/cuckoohash_map.hh:1295-1300 | one pair more, the sum of counters one more |
| CuckooMap.CuckooHashMap.DelFromBucket | uav-rf-detector-backend/core/extern/include/libcuckoo/cuckoohash_map.hh:1980-1983 | one pair less, the sum of counters one less |
| CuckooMap.CuckooHashMap.Size | uav-rf-detector-backend/core/extern/include/libcuckoo/cuckoohash_map.hh:334-344 | the signed counters add up to the number of elements |
| CuckooMap.CuckooHashMap.LoadFactor | uav-rf-detector-backend/core/extern/include/libcuckoo/cuckoohash_map.hh:359-361 | times the number of slots it is the number of elements |
| CuckooMap.CuckooHashMap.CheckResizeValidity | uav-rf-detector-backend/core/extern/include/libcuckoo/cuckoohash_map.hh:1807-1824 | in numbers: refused for the limit exactly if the new hashpower is above it, for the load factor exactly if automatic and with fewer elements than the minimum load factor times the slots, in this order; else it goes ahead exactly at the hashpower found |
| CuckooMap.CuckooHashMap.MaybeResizeLocks | uav-rf-detector-backend/core/extern/include/libcuckoo/cuckoohash_map.hh:1826-1851 | as many locks as new buckets, up to the greatest number, or as many as before if those were no fewer; map and full table unchanged |
| CuckooMap.CuckooHashMap.FastDouble | uav-rf-detector-backend/core/extern/include/libcuckoo/cuckoohash_map.hh:1671-1754 | refused for the limit exactly if the doubled hashpower is above it, for the load factor as stated in numbers; otherwise the full table is the doubled one, with the locks it needs, everything moved or, for a big table that is not locked as a whole, nothing |
| CuckooMap.CuckooHashMap.RehashWithWorkers | uav-rf-detector-backend/core/extern/include/libcuckoo/cuckoohash_map.hh:1962-1974 | all stripes migrated, old buckets freed, map unchanged |
| CuckooMap.CuckooHashMap.CuckooInsertLoop | uav-rf-detector-backend/core/extern/include/libcuckoo/cuckoohash_map.hh:1178-1216 | terminates if the minimum load factor is positive or a maximum is set; a place, the duplicate, or an exception for the reason stated; it doubles only while the table is loaded enough and has no place for the key |
| Snapshot.CeilingExists | uav-rf-detector-backend/core/extern/include/libcuckoo/cuckoohash_map.hh:1192-1216 | the hashpower that automatic doubling cannot pass, from the limit or from the load factor |
| Snapshot.PublishedMoves | uav-rf-detector-backend/core/extern/include/libcuckoo/cuckoohash_map.hh:1719-1752 | a table with fewer buckets than there can be locks is moved at once and its old buckets are gone; of a bigger one nothing has been moved, and every stripe is still to be counted |
| Endless.NeverPlaced | uav-rf-detector-backend/core/extern/include/libcuckoo/cuckoohash_map.hh:1192-1216 | with as many keys of one hash as two buckets have slots, one more is stuck at every hashpower: without a limit the loop would double for ever |
| CuckooMap.CuckooHashMap.Find | uav-rf-detector-backend/core/extern/include/libcuckoo/cuckoohash_map.hh:604-621 | the value of the key, if it is in the map; the stripes of its two buckets are migrated and no others |
| CuckooMap.CuckooHashMap.EraseFn | uav-rf-detector-backend/core/extern/include/libcuckoo/cuckoohash_map.hh:512-524 | with the value and the flag the functor returns for the value of the key, the map has the key assigned or removed; nothing else changes |
| CuckooMap.CuckooHashMap.UpdateFn | uav-rf-detector-backend/core/extern/include/libcuckoo/cuckoohash_map.hh:488-498 | the functor is applied to the value of the key; nothing else changes |
| CuckooMap.CuckooHashMap.UpraseFn | uav-rf-detector-backend/core/extern/include/libcuckoo/cuckoohash_map.hh:555-575 | case by case: a new key with a plain functor gets the value given, with a functor that takes the context what the functor leaves of it; the value of a key that is there gets what the functor leaves of it; in each case the pair goes if the functor says so |
| CuckooMap.UpraseLaws | uav-rf-detector-backend/core/extern/include/libcuckoo/cuckoohash_util.hh:168-183 | functor by functor: a plain functor is not invoked on a new value, one with context is told which it is; the pair stays with the value it leaves, or goes |
| CuckooMap.CuckooHashMap.Insert | uav-rf-detector-backend/core/extern/include/libcuckoo/cuckoohash_map.hh:641-648 | inserts exactly if the key is new |
| CuckooMap.CuckooHashMap.InsertOrAssign | uav-rf-detector-backend/core/extern/include/libcuckoo/cuckoohash_map.hh:657-661 | the map with the key assigned the value, whether it was there or not |
| CuckooMap.CuckooHashMap.Erase | uav-rf-detector-backend/core/extern/include/libcuckoo/cuckoohash_map.hh:662-667 | removes the key, if it is there |
| CuckooMap.CuckooHashMap.Clear | uav-rf-detector-backend/core/extern/include/libcuckoo/cuckoohash_map.hh:1985-1996 | the empty map at the same hashpower, also with a migration pending |
| CuckooMap.CuckooHashMap.ExpandSimple | uav-rf-detector-backend/core/extern/include/libcuckoo/cuckoohash_map.hh:1853-1908 | refused for the limit or the load factor as stated in numbers; when it returns normally with ok, the map is unchanged and the hashpower is the one asked for, or more because some pair had no place in every smaller table |
| Snapshot.CopyDone | uav-rf-detector-backend/core/extern/include/libcuckoo/cuckoohash_map.hh:1880-1897 | inserting all live slots into a new map reproduces the map |
| CuckooMap.CuckooHashMap.Rehash | uav-rf-detector-backend/core/extern/include/libcuckoo/cuckoohash_map.hh:2000-2006 | refused for the limit exactly if it changes the hashpower to one above the limit; the flag is false only if nothing changed, and for a table not asked to shrink it is true exactly if the size changed |
| CuckooMap.CuckooHashMap.Reserve | uav-rf-detector-backend/core/extern/include/libcuckoo/cuckoohash_map.hh:2008-2015 | the same for the least hashpower with room for n; when it returns normally without an exception, there is room for n and for all elements, also if it had nothing to do |
| Snapshot.RebuiltFlag | uav-rf-detector-backend/core/extern/include/libcuckoo/cuckoohash_map.hh:2000-2015 | a table asked to shrink that holds more pairs than half its slots is said to be resized and comes out no smaller |
| Shrinking.ShrinksInVain | uav-rf-detector-backend/core/extern/include/libcuckoo/cuckoohash_map.hh:2000-2006 | a table of two buckets asked to shrink to one bucket is said to be resized, which is right exactly if it holds no more pairs than one bucket has slots; otherwise it has two buckets again |
| Shrinking.CrowdedExists | uav-rf-detector-backend/core/extern/include/libcuckoo/cuckoohash_map.hh:1860-1903 | there are tables for which it is wrong |
| Shrinking.NotCramped | uav-rf-detector-backend/core/extern/include/libcuckoo/cuckoohash_map.hh:1860-1903 | pairs that fit into two buckets find a place in a table of two buckets in whatever order they are inserted |
| Shrinking.StuckInOne | uav-rf-detector-backend/core/extern/include/libcuckoo/cuckoohash_map.hh:1633-1669 | in a table of two buckets that is not full, only a key bound to a bucket full of keys bound to it finds no place |
| Traversal.Iterator.Increment | uav-rf-detector-backend/core/extern/include/libcuckoo/cuckoohash_map.hh:2198-2212 | moves to the next live slot, or to the end |
| Traversal.Iterator.Decrement | uav-rf-detector-backend/core/extern/include/libcuckoo/cuckoohash_map.hh:2224-2244 | moves to the previous live slot |
| Traversal.BackAndForth | uav-rf-detector-backend/core/extern/include/libcuckoo/cuckoohash_map.hh:2198-2244 | going back undoes going forward, and the other way round |
| Traversal.CollectedIsMap | uav-rf-detector-backend/core/extern/include/libcuckoo/cuckoohash_map.hh:2454-2473 | the pairs collected from begin to end are those of the map, and no key comes twice |
| LockedTables.SameContents | uav-rf-detector-backend/core/extern/include/libcuckoo/cuckoohash_map.hh:2653-2664 | with equal sizes, one-sided containment decides equality |
| LockedTables.LockedTable.constructor | uav-rf-detector-backend/core/extern/include/libcuckoo/cuckoohash_map.hh:2686-2690 | everything is migrated, the map unchanged |
| LockedTables.LockedTable.Elements | uav-rf-detector-backend/core/extern/include/libcuckoo/cuckoohash_map.hh:2454-2473 | every live slot is visited exactly once, in order |
| LockedTables.LockedTable.Find | uav-rf-detector-backend/core/extern/include/libcuckoo/cuckoohash_map.hh:2542-2553 | an iterator at the key and its value, or the end |
| LockedTables.LockedTable.Insert | uav-rf-detector-backend/core/extern/include/libcuckoo/cuckoohash_map.hh:2496-2511 | inserts exactly if the key is new; the iterator is at the key either way |
| LockedTables.LockedTable.EraseAt | uav-rf-detector-backend/core/extern/include/libcuckoo/cuckoohash_map.hh:2513-2521 | removes the pair and returns the next position |
| LockedTables.LockedTable.Equals | uav-rf-detector-backend/core/extern/include/libcuckoo/cuckoohash_map.hh:2653-2664 | true if and only if the two maps are equal |
| Exclusion.CheckedStable | uav-rf-detector-backend/core/extern/include/libcuckoo/cuckoohash_map.hh:929-935 | a thread holding a lock of the current array is not overtaken by an append or a publication, and flags stay set |
| Exclusion.PcStable | uav-rf-detector-backend/core/extern/include/libcuckoo/cuckoohash_map.hh:929-1110 | what a thread relies on wherever it is survives the steps of all other threads |
| Exclusion.NobodyInside | uav-rf-detector-backend/core/extern/include/libcuckoo/cuckoohash_map.hh:1089-1110 | while one thread has locked the whole table, nobody is past the check of the hashpower |
| Steps.CheckPasses | uav-rf-detector-backend/core/extern/include/libcuckoo/cuckoohash_map.hh:925-935 | a thread that finds the hashpower unchanged has its lock in the current lock array |
| Steps.OldBucketsThere | uav-rf-detector-backend/core/extern/include/libcuckoo/cuckoohash_map.hh:957-969 | whenever a stripe is migrated the old buckets are still there |
| Steps.CountNow | uav-rf-detector-backend/core/extern/include/libcuckoo/cuckoohash_map.hh:2037-2059 | the lazy counter is the number of stripes not migrated plus the threads between setting a flag and counting it |
| Steps.CountIsPositive | uav-rf-detector-backend/core/extern/include/libcuckoo/cuckoohash_map.hh:2051-2059 | the counter is positive whenever a thread is about to decrement it, and it is 1 then only after every stripe has moved and been counted |
| Steps.FoundIsRight | uav-rf-detector-backend/core/extern/include/libcuckoo/cuckoohash_map.hh:1147-1158 | a lookup under the locks of the key's two buckets gives the answer of the whole map |
| Steps.WantedHas | uav-rf-detector-backend/core/extern/include/libcuckoo/cuckoohash_map.hh:993-1060 | a task takes the locks of the buckets it works on |
| Steps.WantedOnly | uav-rf-detector-backend/core/extern/include/libcuckoo/cuckoohash_map.hh:993-1060 | and no others |
| Steps.LookIsOk | uav-rf-detector-backend/core/extern/include/libcuckoo/cuckoohash_map.hh:1638-1665 | a look of the search at a bucket that others may have written keeps the search in order |
| Steps.SearchEndsKeeps | uav-rf-detector-backend/core/extern/include/libcuckoo/cuckoohash_map.hh:1379-1398 | the path that a search ends with is linked, so the displacements it leads to keep the invariant |
| Steps.MovedOk | uav-rf-detector-backend/core/extern/include/libcuckoo/cuckoohash_map.hh:1498-1535 | a displacement along a path that other threads may have made stale keeps the map |
| Steps.MoveInsideKeeps | uav-rf-detector-backend/core/extern/include/libcuckoo/cuckoohash_map.hh:1489-1542 | every displacement, carried out or abandoned, keeps the invariant |
| Steps.InsertFreedKeeps | uav-rf-detector-backend/core/extern/include/libcuckoo/cuckoohash_map.hh:1267-1282 | insertion after the locks were dropped: the freed slot is still free, and the second look prevents a second copy |
| Steps.AppendLocksKeeps | uav-rf-detector-backend/core/extern/include/libcuckoo/cuckoohash_map.hh:1836-1851 | adding a lock array keeps the invariant |
| Steps.PublishDoubledKeeps | uav-rf-detector-backend/core/extern/include/libcuckoo/cuckoohash_map.hh:1713-1752 | so does publishing the new hashpower |
| Steps.StepKeeps | uav-rf-detector-backend/core/extern/include/libcuckoo/cuckoohash_map.hh:929-1110 | every step of every thread keeps the invariant, unless the comparison with the end of the list comes too late |
| Steps.StepKeepsExactly | uav-rf-detector-backend/core/extern/include/libcuckoo/cuckoohash_map.hh:906-917 | the invariant is broken exactly by a comparison, after the last release, that finds a lock array added since |
| Steps.RunInv | uav-rf-detector-backend/core/extern/include/libcuckoo/cuckoohash_map.hh:906-1110 | the invariant holds along all runs without such a comparison |
| Guarantees.MutualExclusion | uav-rf-detector-backend/core/extern/include/libcuckoo/cuckoohash_map.hh:929-1110 | a thread past the check, also while it waits for its other locks, holds its locks in the current array at the current hashpower; nobody else past the check holds one of the same stripe and nobody has locked the table |
| Guarantees.SearchAdvances | uav-rf-detector-backend/core/extern/include/libcuckoo/cuckoohash_map.hh:1638-1665 | every look of a search brings it nearer to its end, with its queue within bounds |
| Guarantees.StepRefines | uav-rf-detector-backend/core/extern/include/libcuckoo/cuckoohash_map.hh:1237-1289 | every step leaves the map alone or applies the effect of the one operation its thread is executing, with the right answer, once between start and return |
| Guarantees.RunRefines | uav-rf-detector-backend/core/extern/include/libcuckoo/cuckoohash_map.hh:1237-1289 | along a run without a late comparison the map is the result of the effects so far, all answers were right, no key is stored twice, and the counters add up to the number of elements |
| Guarantees.FreeingLosesNothing | uav-rf-detector-backend/core/extern/include/libcuckoo/cuckoohash_map.hh:2051-2059 | the thread that frees the old buckets does so when all has moved |
| Guarantees.BigTables | uav-rf-detector-backend/core/extern/include/libcuckoo/cuckoohash_map.hh:906-917 | in a table created with as many buckets as there can be locks the invariant holds along all runs, without condition |
| Guarantees.BigTablesRefine | uav-rf-detector-backend/core/extern/include/libcuckoo/cuckoohash_map.hh:1237-1289 | and so the map, the answers, uniqueness and the counters are right along all of them |
| Interface.LookupEffect | uav-rf-detector-backend/core/extern/include/libcuckoo/cuckoohash_map.hh:604-630 | a lookup leaves the map, and its answer is the value of the key, if it is there |
| Interface.UpdateEffect | uav-rf-detector-backend/core/extern/include/libcuckoo/cuckoohash_map.hh:488-498 | an update applies its functor to the value of the key, if it is there |
| Interface.ErasureEffect | uav-rf-detector-backend/core/extern/include/libcuckoo/cuckoohash_map.hh:662-667 | an erasure removes the key, and its answer tells whether it was there |
| Interface.ErasureByEffect | uav-rf-detector-backend/core/extern/include/libcuckoo/cuckoohash_map.hh:512-524 | an erasure by functor assigns or removes, as the functor says |
| Interface.InsertionEffect | uav-rf-detector-backend/core/extern/include/libcuckoo/cuckoohash_map.hh:641-648 | an insertion leaves the value of a key that is there, and its answer tells whether the key was new |
| Interface.AssignmentEffect | uav-rf-detector-backend/core/extern/include/libcuckoo/cuckoohash_map.hh:657-661 | insert_or_assign gives the key the value, whether it was there or not |
| Interface.UpsertionEffect | uav-rf-detector-backend/core/extern/include/libcuckoo/cuckoohash_map.hh:555-575 | for every functor, with or without context, the operation of the machine does to the map what uprase_fn does in the table of one thread |
| Interface.NoOtherOperations | uav-rf-detector-backend/core/extern/include/libcuckoo/cuckoohash_map.hh:512-575 | every operation of the machine has the effect of an upsert or an erasure with some functor |
| Interface.UpsertionServed | uav-rf-detector-backend/core/extern/include/libcuckoo/cuckoohash_map.hh:555-575 | beside any other threads, the step at which an upsert takes effect does to the map what the table of one thread promises, and its answer tells whether the key was new |
| Interface.InsertionServed | uav-rf-detector-backend/core/extern/include/libcuckoo/cuckoohash_map.hh:641-648 | so does that of an insertion |
| Interface.ErasureServed | uav-rf-detector-backend/core/extern/include/libcuckoo/cuckoohash_map.hh:662-667 | so does that of an erasure |
| Interface.LookupServed | uav-rf-detector-backend/core/extern/include/libcuckoo/cuckoohash_map.hh:604-630 | and that of a lookup, which answers with the value of that moment |
| Upkeep.LocksFollowBuckets | uav-rf-detector-backend/core/extern/include/libcuckoo/cuckoohash_map.hh:1826-1851 | along any run without a late comparison, while nobody has provided for a doubling, the current array has exactly one lock for each bucket, up to the greatest number |
| Upkeep.OldBucketsGo | uav-rf-detector-backend/core/extern/include/libcuckoo/cuckoohash_map.hh:2037-2059 | along any run without a late comparison, once every stripe is migrated and counted and nobody is about to free them, the old buckets are gone |
| Alone.RunsAlone | uav-rf-detector-backend/core/extern/include/libcuckoo/cuckoohash_map.hh:1192-1289 | a call that nobody disturbs ends with its effect in the map and the right answer, unless the key is new and no slot can be freed for it within reach: exactly then its search is exhausted |
| Alone.DisplaceAlone | uav-rf-detector-backend/core/extern/include/libcuckoo/cuckoohash_map.hh:1478-1543 | the displacements of a thread on its own succeed at the first attempt |
| Alone.SpoiltAlone | uav-rf-detector-backend/core/extern/include/libcuckoo/cuckoohash_map.hh:1379-1398 | a thread whose path others have spoilt searches again; if nobody disturbs it any more it ends with its effect, unless no slot can be freed within reach |
| Overtaking.FillsUp | uav-rf-detector-backend/core/extern/include/libcuckoo/cuckoohash_map.hh:1192-1216 | a thread that inserts more keys than the table has slots gets to an exhausted search |
| Overtaking.RaceIsLost | uav-rf-detector-backend/core/extern/include/libcuckoo/cuckoohash_map.hh:906-917 | a thread that compares too late releases the array a resizer counts on, is called again, and enters its critical section while the resizer has the whole table |
| Overtaking.SmallIsNotExclusive | uav-rf-detector-backend/core/extern/include/libcuckoo/cuckoohash_map.hh:906-917 | the whole run, from a new table, on which two threads come to that |
| Overtaking.ExclusionExactly | uav-rf-detector-backend/core/extern/include/libcuckoo/cuckoohash_map.hh:906-1110 | with two or more threads and more keys than slots, exclusion holds along all runs exactly if the table is created with as many buckets as there can be locks |
| Progress.WaitsAbove | uav-rf-detector-backend/core/extern/include/libcuckoo/cuckoohash_map.hh:993-1060 | every thread waits only for a lock above all those it holds, by array and then by index |
| Progress.NoDeadlock | uav-rf-detector-backend/core/extern/include/libcuckoo/cuckoohash_map.hh:993-1110 | if some thread is not idle, one of those is not waiting for a held lock |
| Progress.SomeThreadMoves | uav-rf-detector-backend/core/extern/include/libcuckoo/cuckoohash_map.hh:929-1110 | and that thread can take a step: no place in the program is a dead end |
| Retry.StepFailsByCheck | uav-rf-detector-backend/core/extern/include/libcuckoo/cuckoohash_map.hh:929-935 | no step but the check of a resize leads to an exception, and only an exhausted search leads to a resize |
| Retry.OnlyUpsertsFail | uav-rf-detector-backend/core/extern/include/libcuckoo/cuckoohash_map.hh:1807-1824 | along any run without a late comparison, an operation that ends with an exception or is on its way there is an upsert, and was sent there by the check of a resize under all locks: nobody fails because the hashpower has changed |
| Retry.ResizesOnlyAfterSearch | uav-rf-detector-backend/core/extern/include/libcuckoo/cuckoohash_map.hh:1192-1216 | along any run without a late comparison, whoever locks the table to double it has searched it at the hashpower it means to leave and found its queue exhausted |
| Retry.OutdatedPlaces | uav-rf-detector-backend/core/extern/include/libcuckoo/cuckoohash_map.hh:1069-1082 | a thread that goes by an old hashpower is not past its check: it is before it, in its search, or about to lock the table |
| Retry.StartsAgain | uav-rf-detector-backend/core/extern/include/libcuckoo/cuckoohash_map.hh:1069-1082 | wherever that is, if nobody disturbs it, it comes back to the beginning of its operation with the table unchanged |
| Retry.OvertakenOperationEnds | uav-rf-detector-backend/core/extern/include/libcuckoo/cuckoohash_map.hh:1069-1082 | and ends with its effect and the right answer, like an operation that has only now been called |

## Left out

- Allocators, alignment, placement construction, moved-from objects: a slot holds a pair as a value, and moves are copies that do not throw.
- The branch of `cuckoo_fast_double` for data whose move constructor may throw: it is `cuckoo_expand_simple`, which is modelled for `rehash` and `reserve`.
- The state after an exception inside `cuckoo_expand_simple`: nothing is claimed, since pairs may have been moved out of the table.
- Minimality of the hashpower after a shrink, and that it respects `maximum_hashpower`: the temporary map has no such limit.
- Shrinking and `cuckoo_expand_simple` beside other threads: hashpowers could then come back, which the check of the hashpower cannot tell.
- Weak memory orderings: steps are sequentially consistent. The exchange of the bucket containers that publishes a doubled table is one step.
- Each write of a critical section and the search's reads under one lock are one step, since the locks they need are held throughout.
- `clear` and `lock_table` beside other threads: they use `lock_all` as doubling does, without appending or publishing.
- The exits for a hashpower that changed under an operation: they are part of the machine of threads, and cannot occur in the class for one thread.
- Older lock arrays in the class for one thread: only the current one matters there.
- Limits in the machine of threads: whether a resize throws is left open there, since other threads may set the limits at any time; they are decided in the class for one thread.
- Floating point: load factors are real numbers.
- Word width of sizes: hashes, tags and the path code have the widths of the source, but bucket counts near 2^64 are not modelled.
- CuckooMap.CuckooHashMap.CuckooInsertLoop: requires a positive minimum load factor or a maximum hashpower, because without them the loop of the source need not end (`Endless.NeverPlaced`).
- CuckooMap.CuckooHashMap.UpraseFn: requires the same.
- CuckooMap.CuckooHashMap.Insert: requires the same.
- LockedTables.LockedTable.Insert: requires the same.
- The exact condition under which a table of more than two buckets comes out of a shrink at its old size: it depends on the hashes of all its keys and the order of insertion.
- More than eight slots per bucket in the modules for the table; `PathCode` covers any number.
- `swap`, copies and moves of whole maps, and the constructors that build on them; stream operators.
- Setters for the minimum load factor and the maximum hashpower, and the thin wrappers over the operations that are modelled.
- CuckooMap.CuckooHashMap.ExpandSimple: makes no promise when an insertion into the new map throws, because the source does not keep the table usable then.
- The other code of the repository: servers, logging, user interface and build files.
