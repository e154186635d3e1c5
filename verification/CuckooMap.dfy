/** The cuckoo hash table as one thread sees it that no other thread interferes with. */
module CuckooMap {
  import opened Bits
  import opened Params
  import opened Hashing
  import opened Rows
  import opened Doubling
  import opened Lazy
  import opened Locks
  import opened State
  import opened Snapshot
  import opened Container
  import opened Migration
  import opened PathCode
  import opened Paths
  import opened Frontier
  import opened Guards
  import opened Records
  import opened Scan
  import opened Sizing

  const DEFAULT_MINIMUM_LOAD_FACTOR: real := 0.05

  /** Whether the caller owns the whole table, so that the current buckets must be up to date, or locks it piecewise. */
  datatype Mode = LockedTable | Normal

  datatype Error = LoadFactorTooLow(threshold: real) | MaximumHashpowerExceeded(hashpower: nat)

  datatype Status = Ok | Failure | KeyNotFound | KeyDuplicated | TableFull | UnderExpansion | Threw(error: Error)

  datatype Position = Position(index: nat, slot: nat, status: Status)

  /** What an upsert tells its functor: whether the value is the one just inserted. */
  datatype UpsertContext = NewlyInserted | AlreadyExisted

  /** A functor given to uprase: it may or may not take the context. It returns the new value and whether to erase. */
  datatype Functor = Plain(f: Value -> (Value, bool)) | WithContext(g: (Value, UpsertContext) -> (Value, bool))

  /** A functor that takes no context is not invoked on a value that has just been inserted. */
  function Invoke(fn: Functor, v: Value, c: UpsertContext): (Value, bool) {
    match fn
    case WithContext(g) => g(v, c)
    case Plain(f) => if c == AlreadyExisted then f(v) else (v, false)
  }

  function Updated(m: map<Key, Value>, k: Key, r: (Value, bool)): map<Key, Value> {
    if r.1 then m - {k} else m[k := r.0]
  }

  lemma UpdatedIs(m: map<Key, Value>, k: Key, r: (Value, bool))
    ensures Updated(m, k, r) == if r.1 then m - {k} else m[k := r.0]
    ensures Updated(m, k, r) == if r.1 then m[k := r.0] - {k} else m[k := r.0]
  {
  }

  /** The map after uprase(k, fn, v). */
  function Uprased(m: map<Key, Value>, k: Key, v: Value, fn: Functor): map<Key, Value> {
    if k in m then Updated(m, k, Invoke(fn, m[k], AlreadyExisted)) else Updated(m, k, Invoke(fn, v, NewlyInserted))
  }

  class CuckooHashMap {
    const buckets: BucketContainer
    const oldBuckets: BucketContainer
    var locks: array<Spinlock>
    var remaining: nat
    var minimumLoadFactor: real
    var maximumHashpower: Option<nat>
    var maxNumWorkerThreads: nat

    /** The map this table stands for. */
    ghost var model: map<Key, Value>

    /** An empty table with room for n elements. */
    constructor (n: nat)
      ensures Valid() && model == map[] && Now().s.AllMigrated()
      ensures fresh(buckets) && fresh(oldBuckets) && fresh(locks) && fresh(buckets.buckets) && fresh(oldBuckets.buckets)
      ensures n <= Capacity(buckets.hashpower) && forall h: nat | n <= Capacity(h) :: buckets.hashpower <= h
      ensures Now().limits == Limits(DEFAULT_MINIMUM_LOAD_FACTOR, None, 0)
      ensures |Now().locks| == Min(Pow2(buckets.hashpower), MaxLocks())
    {
      var hp := ReserveCalc(n);
      buckets := new BucketContainer(hp);
      oldBuckets := new BucketContainer(0);
      locks := new Spinlock[Min(HashSize(hp), MaxLocks())](_ => Spinlock(0, true));
      remaining := 0;
      minimumLoadFactor := DEFAULT_MINIMUM_LOAD_FACTOR;
      maximumHashpower := None;
      maxNumWorkerThreads := 0;
      model := map[];
      new;
      GoodInitially(Now().s, Now().locks);
      UnmigratedZero(Now().s.migrated);
    }

    ghost function Heap(): set<object?>
      reads this, buckets, oldBuckets
    {
      {this, buckets, oldBuckets, locks, buckets.buckets, oldBuckets.buckets}
    }

    ghost function Now(): Snap
      reads this, buckets, oldBuckets, locks, buckets.buckets, oldBuckets.buckets
    {
      Snap(Split(buckets.hashpower, buckets.Rows(), oldBuckets.Rows(), Flags(locks[..])), locks[..], model, remaining,
           Limits(minimumLoadFactor, maximumHashpower, maxNumWorkerThreads),
           locks, buckets.buckets, oldBuckets.buckets, oldBuckets.hashpower)
    }

    ghost predicate Separate()
      reads this, buckets, oldBuckets, buckets.buckets, oldBuckets.buckets
    {
      && buckets != oldBuckets && buckets.buckets != null && buckets.buckets != oldBuckets.buckets
      && buckets.Valid() && oldBuckets.Valid()
    }

    ghost predicate Sound()
      reads this, buckets, oldBuckets, locks, buckets.buckets, oldBuckets.buckets
    {
      Separate() && Now().Sound()
    }

    ghost predicate Valid()
      reads this, buckets, oldBuckets, locks, buckets.buckets, oldBuckets.buckets
    {
      Sound() && Now().Settled()
    }

    /** Valid, and with the current buckets up to date if the caller owns the whole table. */
    ghost predicate Open(mode: Mode)
      reads this, buckets, oldBuckets, locks, buckets.buckets, oldBuckets.buckets
    {
      Valid() && (mode.LockedTable? ==> Now().s.AllMigrated())
    }

    /** Since the moment of a, when the table was made of the objects h, nothing but migration has happened. */
    ghost predicate Since(mode: Mode, a: Snap, h: set<object?>)
      reads this, buckets, oldBuckets, locks, buckets.buckets, oldBuckets.buckets
    {
      Open(mode) && Migrated(a, Now()) && Heap() - {null} <= h
    }

    lemma SinceNow(mode: Mode)
      requires Open(mode)
      ensures Since(mode, Now(), Heap())
    {
      hide *;
      MigratedRefl(Now());
      SinceIs(mode, Now(), Heap());
    }

    lemma SinceIs(mode: Mode, a: Snap, h: set<object?>)
      ensures Since(mode, a, h) <==> Open(mode) && Migrated(a, Now()) && Heap() - {null} <= h
    {
      hide Open, Migrated, Now, Heap;
    }

    lemma SinceThen(mode: Mode, a: Snap, h: set<object?>, b: Snap, g: set<object?>)
      requires Migrated(a, b) && g - {null} <= h && Since(mode, b, g)
      ensures Since(mode, a, h)
    {
      hide *;
      SinceIs(mode, b, g);
      MigratedTrans(a, b, Now());
      SinceIs(mode, a, h);
    }

    lemma SinceFacts(mode: Mode, a: Snap, h: set<object?>)
      requires Since(mode, a, h)
      ensures Open(mode) && Valid() && Migrated(a, Now()) && Heap() - {null} <= h
      ensures Now().model == a.model && Now().s.hp == a.s.hp && Now().Full() == a.Full() && Now().limits == a.limits
      ensures |Now().s.migrated| == |a.s.migrated|
    {
      hide *;
      SinceIs(mode, a, h);
      MigratedFacts(a, Now());
      OpenIs(mode);
    }

    lemma OpenIs(mode: Mode)
      ensures Open(mode) <==> Valid() && (mode.LockedTable? ==> Now().s.AllMigrated())
    {
      hide Valid, Now;
    }

    /** Since the moment of a, pairs may have been displaced, but the table stands for the same map. */
    ghost predicate After(mode: Mode, a: Snap, h: set<object?>)
      reads this, buckets, oldBuckets, locks, buckets.buckets, oldBuckets.buckets
    {
      Open(mode) && Kept(a, Now()) && Heap() - {null} <= h
    }

    lemma AfterIs(mode: Mode, a: Snap, h: set<object?>)
      ensures After(mode, a, h) <==> Open(mode) && Kept(a, Now()) && Heap() - {null} <= h
    {
      hide Open, Kept, Now, Heap;
    }

    lemma AfterNow(mode: Mode)
      requires Open(mode)
      ensures After(mode, Now(), Heap())
    {
      hide *;
      KeptRefl(Now());
      AfterIs(mode, Now(), Heap());
    }

    lemma AfterThen(mode: Mode, a: Snap, h: set<object?>, b: Snap, g: set<object?>)
      requires Kept(a, b) && g - {null} <= h && After(mode, b, g)
      ensures After(mode, a, h)
    {
      hide *;
      AfterIs(mode, b, g);
      KeptTrans(a, b, Now());
      AfterIs(mode, a, h);
    }

    lemma AfterFacts(mode: Mode, a: Snap, h: set<object?>)
      requires After(mode, a, h)
      ensures Open(mode) && Valid() && Kept(a, Now()) && Heap() - {null} <= h
      ensures Now().model == a.model && Now().s.hp == a.s.hp && Now().limits == a.limits
    {
      AfterIs(mode, a, h);
      OpenIs(mode);
      hide Open, Now, Heap;
    }

    lemma SinceAfter(mode: Mode, a: Snap, h: set<object?>)
      requires a.Sound() && Since(mode, a, h)
      ensures After(mode, a, h)
    {
      hide *;
      SinceFacts(mode, a, h);
      OpenFacts(mode);
      MigratedKept(a, Now());
      AfterIs(mode, a, h);
    }

    lemma Mine()
      ensures {this, buckets, oldBuckets, locks, buckets.buckets, oldBuckets.buckets} == Heap()
    {
    }

    /** As Since, but the count of stripes to migrate may be wrong. */
    ghost predicate Partly(a: Snap, h: set<object?>)
      reads this, buckets, oldBuckets, locks, buckets.buckets, oldBuckets.buckets
    {
      Sound() && Migrated(a, Now()) && Heap() - {null} <= h
    }

    lemma PartlyNow()
      requires Sound()
      ensures Partly(Now(), Heap())
    {
      MigratedRefl(Now());
      hide Sound, Migrated;
    }

    lemma PartlyFacts(a: Snap, h: set<object?>)
      requires Partly(a, h)
      ensures Sound() && Now().Sound() && Separate() && Migrated(a, Now()) && Heap() - {null} <= h
      ensures |Now().s.migrated| == |a.s.migrated| == locks.Length == |Now().locks|
    {
      MigratedFacts(a, Now());
      hide Migrated, Represents, Snap.Full;
    }

    lemma PartlyThen(a: Snap, h: set<object?>, b: Snap, g: set<object?>)
      requires Migrated(a, b) && g - {null} <= h && Partly(b, g)
      ensures Partly(a, h)
    {
      MigratedTrans(a, b, Now());
      hide Sound, Migrated;
    }

    /** New objects are not part of the table. */
    twostate lemma Apart(new o: object)
      requires fresh(o) && Heap() - {null} <= old(Heap())
      ensures o !in Heap()
    {
      assert o !in old(Heap());
    }

    lemma Elsewhere(o: object)
      requires o !in Heap()
      ensures o != this && o != buckets && o != oldBuckets && o != locks && o != buckets.buckets && o != oldBuckets.buckets
    {
    }

    lemma CurrentBuckets()
      requires Valid()
      ensures Separate() && buckets.buckets != null && Now().s.cur == buckets.Rows() && Now().s.hp == buckets.hashpower
      ensures Now().locks == locks[..] && Now().s.cur == buckets.buckets[..] && Now().Settled() && Now().Sound()
    {
      hide Snap.Sound, Snap.Settled;
    }

    lemma ModelNow()
      ensures Now().model == model && Now().limits == Limits(minimumLoadFactor, maximumHashpower, maxNumWorkerThreads)
    {
    }

    /** The locks have been replaced by r, which are more. */
    lemma GrewNow(a: Snap, n: nat)
      requires |a.locks| <= n && Separate() && Now() == GrownSnap(a, n, locks)
      requires GrownSnap(a, n, locks).Sound() && GrownSnap(a, n, locks).Settled() && GrownSnap(a, n, locks).s.AllMigrated()
      ensures Valid() && Now().s.AllMigrated() && OnlyLocks(a, Now())
    {
      hide Snap.Sound, Snap.Settled;
    }

    /** No rows, no memory: a table has at least one bucket. */
    lemma OldIsFreed()
      requires Separate() && Now().s.past == []
      ensures oldBuckets.buckets == null
    {
    }

    lemma PublishedNow(a: Snap)
      requires Separate() && a.Sound() && a.s.AllMigrated() && |a.locks| >= Min(MaxLocks(), Pow2(a.s.hp + 1))
      requires buckets.hashpower == a.s.hp + 1 && Shaped(a.s.cur, a.s.hp) && Placed(a.s.cur, a.s.hp)
      requires model == a.model && Limits(minimumLoadFactor, maximumHashpower, maxNumWorkerThreads) == a.limits
      requires if HashSize(a.s.hp) < MaxLocks()
               then buckets.Rows() == Doubled(a.s.hp, a.s.cur) && oldBuckets.buckets == null && locks[..] == a.locks && remaining == 0
               else && buckets.Rows() == EmptyTable(a.s.hp + 1) && locks[..] == Unmarked(a.locks) && remaining == |a.locks|
                    && oldBuckets.buckets != null && oldBuckets.hashpower == a.s.hp && oldBuckets.Rows() == a.s.cur
      ensures Valid() && PublishedAs(a, Now())
    {
      PublishedFlags(a.s, a.locks);
      assert PublishedAs(a, Now()) by {
        hide Placed, Doubled, Represents, Shaped, LockInd, EmptyTable;
      }
      hide *;
      PublishSnap(a, Now());
      ValidIs();
    }

    lemma ValidIs()
      requires Separate() && Now().Sound() && Now().Settled()
      ensures Valid()
    {
      hide Snap.Sound, Snap.Settled;
    }

    lemma OldIsGone()
      requires Valid() && oldBuckets.buckets == null
      ensures Now().s.AllMigrated()
    {
      hide Represents;
    }

    lemma ValidIsSound()
      requires Valid()
      ensures Sound()
    {
    }

    lemma SoundNow()
      requires Sound()
      ensures Now().Sound()
    {
      hide Snap.Sound;
    }

    /** The table is made of the same objects as before, or of new ones. */
    twostate predicate Renewed()
      reads this, buckets, oldBuckets
    {
      && (locks in old(Heap()) || fresh(locks))
      && (buckets.buckets in old(Heap()) || buckets.buckets == null || fresh(buckets.buckets))
      && (oldBuckets.buckets in old(Heap()) || oldBuckets.buckets == null || fresh(oldBuckets.buckets))
    }

    twostate lemma RenewedFacts()
      requires Renewed()
      ensures forall o | o in Heap() && o != null :: o in old(Heap()) || fresh(o)
      ensures locks in old(Heap()) || fresh(locks)
      ensures buckets.buckets in old(Heap()) || buckets.buckets == null || fresh(buckets.buckets)
      ensures oldBuckets.buckets in old(Heap()) || oldBuckets.buckets == null || fresh(oldBuckets.buckets)
    {
    }

    /** The same over two calls, with the objects g between them. */
    twostate lemma RenewedThen(new g: set<object?>)
      requires forall o | o in g && o != null :: o in old(Heap()) || fresh(o)
      requires locks in g || fresh(locks)
      requires buckets.buckets in g || buckets.buckets == null || fresh(buckets.buckets)
      requires oldBuckets.buckets in g || oldBuckets.buckets == null || fresh(oldBuckets.buckets)
      ensures Renewed()
    {
    }

    twostate lemma RenewedStill(new g: set<object?>)
      requires Heap() - {null} <= g && forall o | o in g && o != null :: o in old(Heap()) || fresh(o)
      ensures Renewed()
    {
    }

    twostate lemma RenewedLess()
      requires Heap() - {null} <= old(Heap())
      ensures Renewed()
    {
    }

    /** A new table with room for a whole table of hashpower hp. */
    lemma ReadyToFill(hp: nat)
      requires Valid() && Capacity(hp) <= Capacity(buckets.hashpower) && buckets.hashpower <= hp
      ensures Open(Normal) && Now().s.hp == hp
    {
      CapacityIncreasing(buckets.hashpower, hp);
      hide Capacity, Snap.Sound, Snap.Settled;
    }

    lemma ReopenAll(mode: Mode)
      requires Open(LockedTable)
      ensures Open(mode) && Valid()
    {
      hide Valid;
    }

    twostate lemma RenewedParts(new g: set<object?>)
      requires g - {null} <= old(Heap()) && (locks in g || fresh(locks))
      requires buckets.buckets == null || buckets.buckets in g || fresh(buckets.buckets)
      requires oldBuckets.buckets == null || oldBuckets.buckets in g || fresh(oldBuckets.buckets)
      ensures Renewed()
    {
      assert forall o | o in g && o != null :: o in g - {null};
    }

    lemma Reopen(mode: Mode)
      requires Separate() && Now().Sound() && Now().Settled() && (mode.LockedTable? ==> Now().s.AllMigrated())
      ensures Open(mode)
    {
      hide Snap.Sound, Snap.Settled;
    }

    lemma BucketLock(mode: Mode, i: nat)
      requires Open(mode) && i < HashSize(Now().s.hp)
      ensures LockInd(i) < |Now().s.migrated|
    {
      SoundFacts(Now());
      hide Snap.Sound, LockInd;
    }

    lemma BucketReady(mode: Mode, i: nat)
      requires Open(mode) && i < HashSize(Now().s.hp)
      requires mode.Normal? ==> LockInd(i) < |Now().s.migrated| && Now().s.migrated[LockInd(i)]
      ensures Ready(Now(), i)
    {
      SoundFacts(Now());
      hide Snap.Sound, LockInd;
    }

    /** What an open table is like. */
    lemma OpenFacts(mode: Mode)
      requires Open(mode)
      ensures Valid() && Sound() && Now().Sound() && Now().s.Wf() && Now().Full() == Now().s.Effective()
      ensures Shaped(Now().Full(), Now().s.hp) && Placed(Now().Full(), Now().s.hp) && |Now().Full()| == HashSize(Now().s.hp)
      ensures Represents(Now().Full(), Now().s.hp, Now().model)
    {
      SoundFacts(Now());
      hide Snap.Sound, Snap.Full;
    }

    // Migration.

    method FreeOldBuckets()
      requires Sound() && Unmigrated(Now().s.migrated) == 0
      modifies oldBuckets, oldBuckets.buckets
      ensures Sound() && Migrated(old(Now()), Now()) && Heap() - {null} <= old(Heap())
      ensures Now() == old(Now()).(s := old(Now()).s.(past := []), pastRef := null)
    {
      ghost var a := Now();
      UnmigratedZero(a.s.migrated);
      GoodFree(a.s, a.locks, model);
      hide Good, Split.Effective;
      oldBuckets.ClearAndDeallocate();
    }

    /** One lazy migration less is outstanding; after the last one the old buckets are freed. */
    method DecrementRemaining()
      requires Sound() && remaining == Unmigrated(Now().s.migrated) + 1
      modifies Heap()
      ensures Valid() && Migrated(old(Now()), Now()) && Heap() - {null} <= old(Heap())
      ensures Now().s.migrated == old(Now().s.migrated) && Now().remaining == old(Now().remaining) - 1
      ensures Now().pastRef == if Now().remaining == 0 then null else old(Now().pastRef)
    {
      hide Good;
      remaining := remaining - 1;
      if remaining == 0 {
        FreeOldBuckets();
      }
    }

    /**
     * Migrates the buckets of lock l, if that has not happened yet. Lazily, the stripe is counted, and the old buckets are
     * freed with the last one.
     */
    method RehashLock(l: nat, isLazy: bool)
      requires Sound() && l < locks.Length && (isLazy ==> Now().Settled())
      modifies Heap()
      ensures Sound() && Migrated(old(Now()), Now()) && Heap() - {null} <= old(Heap())
      ensures Now().s.migrated == old(Now().s.migrated)[l := true]
      ensures if isLazy then Now().Settled() else Now().remaining == old(Now().remaining) && Now().pastRef == old(Now().pastRef)
      ensures isLazy && !old(Now().s.migrated[l]) ==>
                && Now().remaining == old(Now().remaining) - 1
                && Now().pastRef == if Now().remaining == 0 then null else old(Now().pastRef)
    {
      if locks[l].isMigrated {
        assert Now().s.migrated[l := true] == Now().s.migrated;
        return;
      }
      MigrateStripe(l);
      if isLazy {
        UnmigratedUpdate(old(Now().s.migrated), l);
        DecrementRemaining();
      }
    }

    method MarkLock(l: nat)
      requires Separate() && l < locks.Length
      modifies locks
      ensures Separate() && Heap() == old(Heap())
      ensures var a, locks := old(Now()), MarkMigrated(old(Now()).locks, l);
              Now() == a.(s := a.s.(migrated := Flags(locks)), locks := locks)
    {
      locks[l] := locks[l].(isMigrated := true);
      assert locks[..] == MarkMigrated(old(locks[..]), l);
    }

    method FillStripe(l: nat)
      requires Separate() && l < MaxLocks() <= oldBuckets.Size() && oldBuckets.buckets != null
      requires oldBuckets.hashpower + 1 == buckets.hashpower && Placed(oldBuckets.Rows(), oldBuckets.hashpower)
      requires forall r | 0 <= r < |buckets.Rows()| && LockInd(r) == l :: buckets.Rows()[r] == EmptyBucket()
      modifies buckets.buckets
      ensures Separate() && Heap() == old(Heap()) && Now() == old(Now()).(s := old(Now()).s.(cur := buckets.Rows()))
      ensures StripeWritten(old(Now()).s, buckets.Rows(), l)
    {
      hide NewBucket, LockInd, Placed, MaxLocks, EmptyBucket, StripeWritten;
      ghost var s := Now().s;
      MoveStripe(oldBuckets, buckets, l);
      IsWritten(s, buckets.Rows(), l);
    }

    method MigrateStripe(l: nat)
      requires Sound() && l < locks.Length && !locks[l].isMigrated
      modifies locks, buckets.buckets
      ensures Sound() && Migrated(old(Now()), Now()) && Heap() == old(Heap())
      ensures Now().s.migrated == old(Now().s.migrated)[l := true]
      ensures Now().remaining == old(Now().remaining) && Now().pastRef == old(Now().pastRef)
    {
      ghost var a := Now();
      StripeReady(a, l);
      hide Snap.Sound, Migrated, NewBucket, LockInd, Placed, HashSize, MaxLocks, Shaped, StripeWritten, EmptyBucket;
      FillStripe(l);
      MarkLock(l);
      RehashedNow(a, Now(), l);
    }

    // Locking. With no other thread around, taking a lock comes down to migrating its stripe.

    /** Having taken lock l, migrates its stripe. */
    method MigrateLock(mode: Mode, l: nat)
      requires Open(mode) && mode.Normal? && l < |Now().s.migrated|
      modifies Heap()
      ensures Since(mode, old(Now()), old(Heap())) && l < |Now().s.migrated| && Now().s.migrated[l]
      ensures OnlyStripes(old(Now()), Now(), {l})
    {
      hide Snap.Sound, Migrated, OnlyStripes;
      RehashLock(l, true);
      OnlyOne(old(Now()), Now(), l);
    }

    method LockOne(mode: Mode, i: nat)
      requires Open(mode) && i < HashSize(Now().s.hp)
      modifies Heap()
      ensures Since(mode, old(Now()), old(Heap())) && Ready(Now(), i) && OnlyStripes(old(Now()), Now(), {LockInd(i)})
    {
      hide *;
      SinceNow(mode);
      OpenIs(mode);
      if mode.LockedTable? {
        OnlyNone(Now(), {LockInd(i)});
      }
      if mode.Normal? {
        BucketLock(mode, i);
        MigrateLock(mode, LockInd(i));
        SinceFacts(mode, old(Now()), old(Heap()));
      }
      BucketReady(mode, i);
    }

    /** Locks two buckets in the order of their locks. */
    method LockTwo(mode: Mode, i1: nat, i2: nat)
      requires Open(mode) && i1 < HashSize(Now().s.hp) && i2 < HashSize(Now().s.hp)
      modifies Heap()
      ensures Since(mode, old(Now()), old(Heap())) && Ready(Now(), i1) && Ready(Now(), i2)
      ensures OnlyStripes(old(Now()), Now(), {LockInd(i1), LockInd(i2)})
    {
      hide *;
      OpenFacts(mode);
      OpenIs(mode);
      SinceNow(mode);
      if mode.LockedTable? {
        OnlyNone(Now(), {LockInd(i1), LockInd(i2)});
      }
      if mode.Normal? {
        BucketLock(mode, i1);
        BucketLock(mode, i2);
        var l1, l2 := SortTwo(LockInd(i1), LockInd(i2));
        assert LockInd(i1) in multiset{l1, l2} && LockInd(i2) in multiset{l1, l2};
        assert l1 in multiset{LockInd(i1), LockInd(i2)} && l2 in multiset{LockInd(i1), LockInd(i2)};
        MigrateLock(mode, l1);
        ghost var b, g := Now(), Heap();
        SinceFacts(mode, old(Now()), old(Heap()));
        MigrateLock(mode, l2);
        SinceThen(mode, old(Now()), old(Heap()), b, g);
        SinceFacts(mode, b, g);
        StillMigrated(b, Now(), l1);
        OnlyThen(old(Now()), b, Now(), {l1}, {l2});
        assert {l1} + {l2} == {LockInd(i1), LockInd(i2)};
      }
      BucketReady(mode, i1);
      BucketReady(mode, i2);
    }

    /** Locks three buckets in the order of their locks. */
    method LockThree(mode: Mode, i1: nat, i2: nat, i3: nat)
      requires Open(mode) && i1 < HashSize(Now().s.hp) && i2 < HashSize(Now().s.hp) && i3 < HashSize(Now().s.hp)
      modifies Heap()
      ensures Since(mode, old(Now()), old(Heap())) && Ready(Now(), i1) && Ready(Now(), i2) && Ready(Now(), i3)
      ensures OnlyStripes(old(Now()), Now(), {LockInd(i1), LockInd(i2), LockInd(i3)})
    {
      hide *;
      OpenFacts(mode);
      OpenIs(mode);
      SinceNow(mode);
      if mode.LockedTable? {
        OnlyNone(Now(), {LockInd(i1), LockInd(i2), LockInd(i3)});
      }
      if mode.Normal? {
        BucketLock(mode, i1);
        BucketLock(mode, i2);
        BucketLock(mode, i3);
        ghost var wanted := multiset{LockInd(i1), LockInd(i2), LockInd(i3)};
        var l0, l1, l2 := SortThree(LockInd(i1), LockInd(i2), LockInd(i3));
        assert LockInd(i1) in wanted && LockInd(i2) in wanted && LockInd(i3) in wanted;
        assert l0 in wanted && l1 in wanted && l2 in wanted;
        MigrateLock(mode, l0);
        ghost var b, g := Now(), Heap();
        SinceFacts(mode, old(Now()), old(Heap()));
        MigrateLock(mode, l1);
        SinceThen(mode, old(Now()), old(Heap()), b, g);
        SinceFacts(mode, b, g);
        StillMigrated(b, Now(), l0);
        OnlyThen(old(Now()), b, Now(), {l0}, {l1});
        b, g := Now(), Heap();
        SinceFacts(mode, old(Now()), old(Heap()));
        MigrateLock(mode, l2);
        SinceThen(mode, old(Now()), old(Heap()), b, g);
        SinceFacts(mode, b, g);
        StillMigrated(b, Now(), l0);
        StillMigrated(b, Now(), l1);
        OnlyThen(old(Now()), b, Now(), {l0} + {l1}, {l2});
        assert {l0} + {l1} + {l2} == {LockInd(i1), LockInd(i2), LockInd(i3)};
      }
      BucketReady(mode, i1);
      BucketReady(mode, i2);
      BucketReady(mode, i3);
    }

    /** The two buckets of a key at the current hashpower, locked. */
    method SnapshotAndLockTwo(mode: Mode, k: Key) returns (i1: nat, i2: nat)
      requires Open(mode)
      modifies Heap()
      ensures Since(mode, old(Now()), old(Heap())) && Located(Now(), k, i1, i2)
      ensures OnlyStripes(old(Now()), Now(), {LockInd(i1), LockInd(i2)})
    {
      AltOfCandidate(buckets.hashpower, k, Home(buckets.hashpower, k));
      var hp := buckets.hashpower;
      i1 := IndexHash(hp, Hash(k));
      i2 := AltIndex(hp, PartialKey(Hash(k)), i1);
      assert i1 == Home(hp, k) && i2 == Other(hp, k);
      hide Snap.Sound, Migrated, Home, Other, Ready, OnlyStripes;
      LockTwo(mode, i1, i2);
      MigratedFacts(old(Now()), Now());
    }

    // Lookup.

    method CuckooFind(k: Key, partial: Partial, i1: nat, i2: nat) returns (pos: Position)
      requires Sound() && partial == PartialOf(k) && Located(Now(), k, i1, i2)
      ensures pos.status == if k in model then Ok else KeyNotFound
      ensures k in model ==> HoldsAt(Now(), pos.index, pos.slot, k)
      ensures k !in model ==> pos == Position(0, 0, KeyNotFound)
    {
      ghost var a := Now();
      LookupFacts(a, k, i1, i2);
      hide Snap.Sound, PartialOf, Located;
      var slot := TryReadFromBucket(buckets.buckets[i1], partial, k);
      if slot != -1 {
        assert Matches(a.s.cur[i1], slot, partial, k);
        return Position(i1, slot, Ok);
      }
      NotInBucket(a.s.cur, i1, partial, k);
      slot := TryReadFromBucket(buckets.buckets[i2], partial, k);
      if slot != -1 {
        assert Matches(a.s.cur[i2], slot, partial, k);
        return Position(i2, slot, Ok);
      }
      NotInBucket(a.s.cur, i2, partial, k);
      return Position(0, 0, KeyNotFound);
    }

    // The search for a displacement path.

    /** Breadth-first search from the two buckets for the nearest bucket with a free slot. */
    method SlotSearch(mode: Mode, hp: nat, i1: nat, i2: nat) returns (r: BSlot, ghost n: Node, ghost free: nat)
      requires Open(mode) && hp == Now().s.hp && i1 < HashSize(hp) && i2 < HashSize(hp)
      modifies Heap()
      ensures Since(mode, old(Now()), old(Heap()))
      ensures Searched(Now().Full(), hp, i1, i2, r, n, free)
    {
      hide *;
      ghost var t := Now().Full();
      OpenFacts(mode);
      SinceNow(mode);
      var q := StartSearch(i1, i2);
      FitsStarts(hp, i1, i2);
      RootsExplored(t, hp, i1, i2);
      ghost var nodes := [Node(0, []), Node(1, [])];
      n, free := Node(0, []), 0;
      while !q.IsEmpty()
        invariant fresh(q) && fresh(q.slots) && q.Valid()
        invariant Since(mode, old(Now()), old(Heap()))
        invariant Fits(hp, q.Items(), q.first) && Explored(t, hp, i1, i2, q.Items(), nodes, q.first)
        decreases q.slots.Length - q.first
      {
        ghost var b, g := Now(), Heap();
        q.Bounds();
        SinceFacts(mode, old(Now()), old(Heap()));
        Apart(q);
        Apart(q.slots);
        var found;
        found, nodes, n, free := SearchStep(mode, q, hp, t, i1, i2, nodes);
        SinceThen(mode, old(Now()), old(Heap()), b, g);
        SinceFacts(mode, old(Now()), old(Heap()));
        if found.Some? {
          return found.value, n, free;
        }
      }
      q.Bounds();
      ExploredSizes(t, hp, i1, i2, q.Items(), nodes, q.first);
      SearchFails(t, hp, i1, i2, q.Items(), nodes);
      SinceFacts(mode, old(Now()), old(Heap()));
      r := BSlot(0, 0, -1);
      SearchedNothing(t, hp, i1, i2, r, n, free);
    }

    /** Locks one bucket and looks at its contents. */
    method LockAndRead(mode: Mode, i: nat) returns (b: Bucket)
      requires Open(mode) && i < HashSize(Now().s.hp)
      modifies Heap()
      ensures Since(mode, old(Now()), old(Heap()))
      ensures i < |Now().Full()| && b == Now().Full()[i]
    {
      LockOne(mode, i);
      hide Snap.Sound, Snap.Full, Migrated, Ready, Shaped;
      ReadyBucket(Now(), i);
      b := buckets.buckets[i];
    }

    method NextEntry(mode: Mode, q: BQueue) returns (x: BSlot, b: Bucket)
      requires Open(mode) && q !in Heap() && q.slots !in Heap()
      requires q.Valid() && !q.IsEmpty() && q.Items()[q.first].bucket < HashSize(Now().s.hp)
      modifies Heap(), q
      ensures Since(mode, old(Now()), old(Heap()))
      ensures q.Valid() && q.Items() == old(q.Items()) && q.first == old(q.first) + 1 && x == q.Items()[old(q.first)]
      ensures x.bucket < |Now().Full()| && b == Now().Full()[x.bucket]
    {
      hide Snap.Sound, Snap.Full, Migrated, MaxCuckooCount, Shaped;
      x := q.Dequeue();
      b := LockAndRead(mode, x.bucket);
    }

    /**
     * One round of the search: takes an entry off the queue, locks its bucket and expands it. That the queue has room
     * does not depend on what is in the bucket; that the path found is a shortest one does.
     */
    method SearchStep(mode: Mode, q: BQueue, hp: nat, ghost t: Table, ghost i1: nat, ghost i2: nat, ghost nodes: seq<Node>)
      returns (found: Option<BSlot>, ghost nodes': seq<Node>, ghost n: Node, ghost free: nat)
      requires Open(mode) && hp == Now().s.hp && t == Now().Full()
      requires q.Valid() && !q.IsEmpty() && q !in Heap() && q.slots !in Heap()
      requires Fits(hp, q.Items(), q.first) && Explored(t, hp, i1, i2, q.Items(), nodes, q.first)
      modifies Heap(), q, q.slots
      ensures Since(mode, old(Now()), old(Heap()))
      ensures q.Valid() && q.first == old(q.first) + 1
      ensures match found
              case Some(r) => Searched(t, hp, i1, i2, r, n, free)
              case None => Fits(hp, q.Items(), q.first) && Explored(t, hp, i1, i2, q.Items(), nodes', q.first)
    {
      hide *;
      q.Bounds();
      ghost var items, done := q.Items(), q.first;
      EntryFacts(hp, items, done, t, i1, i2, nodes);
      var x, b := NextEntry(mode, q);
      SinceFacts(mode, old(Now()), old(Heap()));
      Elsewhere(q);
      Elsewhere(q.slots);
      var slot := Expand(q, hp, x, b);
      n, free, nodes', found := nodes[done], 0, nodes, None;
      if slot.Some? {
        free := slot.value;
        found := Some(BSlot(x.bucket, Packed(x.pathcode, slot.value), x.depth));
        SearchSucceeds(t, hp, i1, i2, items, nodes, done, free);
        SearchedSome(t, hp, i1, i2, found.value, n, free);
      } else {
        EntryExpanded(t, hp, i1, i2, items, nodes, done);
        nodes' := nodes + ChildNodes(n, x.pathcode % SLOTS, SLOTS);
      }
    }

    /**
     * Finds the shortest path of displacements that frees a slot of one of the two buckets and records its stops.
     * Returns its length, or -1 if every bucket within reach is full.
     */
    method CuckooPathSearch(mode: Mode, hp: nat, path: array<CuckooRecord>, i1: nat, i2: nat)
      returns (depth: int, ghost r: Route)
      requires Open(mode) && hp == Now().s.hp && i1 < HashSize(hp) && i2 < HashSize(hp)
      requires path.Length == MAX_BFS_PATH_LEN && path !in Heap()
      modifies Heap(), path
      ensures Since(mode, old(Now()), old(Heap()))
      ensures PathFound(path[..], depth, r, Now().Full(), hp, i1, i2)
    {
      hide Open, Since, Valid, Sound, Separate, Now, Heap, ShortestFound, NothingFound, Walkable, Recorded, Reading, Snap.Full;
      hide Decode, Shaped, Placed, Represents, Route.VisitsOnce, Snap.Sound, Split.Effective, Split.Wf, Migrated;
      var x;
      ghost var n, free;
      x, n, free := SlotSearch(mode, hp, i1, i2);
      SinceFacts(mode, old(Now()), old(Heap()));
      OpenFacts(mode);
      Elsewhere(path);
      ghost var a, g := Now(), Heap();
      if x.depth == -1 {
        return -1, Route([], []);
      }
      r := RouteFound(a.Full(), hp, i1, i2, x, n, free);
      var rest := DecodePath(path, x.depth, x.pathcode, n.root, r.slots);
      path[0] := path[0].(bucket := if rest == 0 then i1 else i2);
      ReadingStarts(path[..], r, a.Full(), hp);
      depth := ReadRecords(mode, hp, path, x.depth, r);
      SinceThen(mode, old(Now()), old(Heap()), a, g);
      SinceFacts(mode, a, g);
      PathIsFound(path[..], r, a.Full(), hp, i1, i2, x, n, free);
    }

    /** Looks at the stops one after another, up to the first one whose slot is free; the slots of the path are known. */
    method ReadRecords(mode: Mode, hp: nat, path: array<CuckooRecord>, depth: nat, ghost r: Route) returns (end: nat)
      requires Open(mode) && hp == Now().s.hp && path !in Heap() && path.Length == MAX_BFS_PATH_LEN
      requires |r.buckets| == depth + 1 && Walkable(r, Now().Full(), hp) && Reading(path[..], 0, r, Now().Full(), hp)
      modifies Heap(), path
      ensures Since(mode, old(Now()), old(Heap()))
      ensures end == depth && Recorded(path[..], depth, r, Now().Full(), hp)
    {
      hide *;
      ReadingFacts(path[..], 0, r, Now().Full(), hp);
      ghost var a, g := Now(), Heap();
      var free := ReadRecord(mode, hp, path, 0, r);
      SinceFacts(mode, a, g);
      end := 0;
      while !free && end < depth
        invariant 0 <= end <= depth && (free ==> end == depth)
        invariant Since(mode, a, g) && path !in Heap()
        invariant Recorded(path[..], end, r, a.Full(), hp)
      {
        end := end + 1;
        SinceFacts(mode, a, g);
        ghost var b, h := Now(), Heap();
        free := ReadNextRecord(mode, hp, path, end, r);
        SinceThen(mode, a, g, b, h);
        SinceFacts(mode, a, g);
      }
      SinceFacts(mode, a, g);
    }

    /** Reads the hash at one stop, unless its slot is free. */
    method ReadRecord(mode: Mode, hp: nat, path: array<CuckooRecord>, i: nat, ghost r: Route) returns (free: bool)
      requires Open(mode) && hp == Now().s.hp && path !in Heap()
      requires Reading(path[..], i, r, Now().Full(), hp)
      modifies Heap(), path
      ensures Since(mode, old(Now()), old(Heap())) && path !in Heap()
      ensures Recorded(path[..], i, r, Now().Full(), hp)
      ensures free ==> i == |r.buckets| - 1
    {
      hide Open, Since, Valid, Sound, Separate, Now, Heap, Snap.Full, Recorded, Reading;
      ghost var t := Now().Full();
      ghost var before := path[..];
      Elsewhere(path);
      ReadingFacts(before, i, r, t, hp);
      var b := LockAndRead(mode, path[i].bucket);
      SinceFacts(mode, old(Now()), old(Heap()));
      Elsewhere(path);
      if b[path[i].slot].Empty? {
        free := true;
      } else {
        path[i] := path[i].(hv := HashedKey(b[path[i].slot].key));
        free := false;
      }
      assert path[..] == Noted(before, i, b);
      RecordedNext(before, path[..], i, r, t, hp);
    }

    /** Computes the bucket of the next stop from the record of the one before and reads its hash. */
    method ReadNextRecord(mode: Mode, hp: nat, path: array<CuckooRecord>, i: nat, ghost r: Route) returns (free: bool)
      requires Open(mode) && hp == Now().s.hp && path !in Heap() && 1 <= i < |r.buckets| && i < path.Length
      requires Walkable(r, Now().Full(), hp) && Recorded(path[..], i - 1, r, Now().Full(), hp)
      modifies Heap(), path
      ensures Since(mode, old(Now()), old(Heap())) && path !in Heap()
      ensures Recorded(path[..], i, r, Now().Full(), hp)
      ensures free ==> i == |r.buckets| - 1
    {
      hide *;
      Elsewhere(path);
      ghost var before := path[..];
      path[i] := path[i].(bucket := AltIndex(hp, path[i - 1].hv.partial, path[i - 1].bucket));
      SteppedIs(hp, before, path[..], i);
      ReadingNext(before, path[..], i, r, Now().Full(), hp);
      free := ReadRecord(mode, hp, path, i, r);
    }

    // Carrying out a displacement path.

    /** Moves one pair: the target is constructed first and the source erased last. */
    method MovePair(f: nat, fs: nat, g: nat, gs: nat)
      requires Separate() && LiveAt(buckets.Rows(), f, fs)
      requires g < |buckets.Rows()| && gs < SLOTS && buckets.Rows()[g][gs].Empty?
      modifies buckets.buckets
      ensures Separate() && Heap() == old(Heap())
      ensures Now() == DisplacedSnap(old(Now()), f, fs, g, gs)
    {
      ghost var t := buckets.Rows();
      var s := buckets.buckets[f][fs];
      buckets.SetKV(g, gs, s.partial, s.key, s.value);
      buckets.EraseKV(f, fs);
      assert buckets.Rows() == Displaced(t, f, fs, g, gs);
    }

    /** With both buckets locked, checks that the pair and the free slot are still there, and if so moves the pair. */
    method TryDisplace(mode: Mode, from: CuckooRecord, to: CuckooRecord) returns (ok: bool)
      requires Open(mode) && Ready(Now(), from.bucket) && Ready(Now(), to.bucket) && from.slot < SLOTS && to.slot < SLOTS
      requires from.hv.partial == PartialKey(from.hv.hash)
      requires to.bucket == AltIndex(Now().s.hp, from.hv.partial, from.bucket)
      modifies buckets.buckets
      ensures Open(mode) && Kept(old(Now()), Now()) && Heap() == old(Heap())
      ensures from.bucket < |old(Now()).Full()| && to.bucket < |old(Now()).Full()|
      ensures |old(Now()).Full()[from.bucket]| == |old(Now()).Full()[to.bucket]| == SLOTS
      ensures ok <==> MayMove(old(Now()).Full(), from, to)
      ensures ok ==> old(Now()).Full()[from.bucket][from.slot].Live?
      ensures Now().Full() == (if ok then Displaced(old(Now()).Full(), from.bucket, from.slot, to.bucket, to.slot)
                               else old(Now()).Full())
      ensures |Now().s.cur| == |old(Now()).s.cur| && Now().s.migrated == old(Now()).s.migrated
    {
      hide Open, Valid, Now, Heap, Snap.Full, Snap.Sound, DisplacedSnap, Displaced, AltIndex, PartialKey, Ready;
      ghost var a := Now();
      OpenFacts(mode);
      OpenIs(mode);
      MayMoveFacts(a, from, to);
      CurrentBuckets();
      var fb, tb := buckets.buckets[from.bucket], buckets.buckets[to.bucket];
      if tb[to.slot].Live? || fb[from.slot].Empty? || Hash(fb[from.slot].key) != from.hv.hash {
        KeptRefl(a);
        return false;
      }
      DisplaceSnap(a, from.bucket, from.slot, to.bucket, to.slot);
      MovePair(from.bucket, from.slot, to.bucket, to.slot);
      Reopen(mode);
      ok := true;
    }

    /** Locks the two buckets of a displacement; for the last one of a path, both insert buckets as well. */
    method LockForMove(mode: Mode, i1: nat, i2: nat, f: nat, g: nat, last: bool)
      requires Open(mode) && f < HashSize(Now().s.hp) && g < HashSize(Now().s.hp)
      requires i1 < HashSize(Now().s.hp) && i2 < HashSize(Now().s.hp) && (last ==> f == i1 || f == i2)
      modifies Heap()
      ensures Since(mode, old(Now()), old(Heap())) && Ready(Now(), f) && Ready(Now(), g)
      ensures last ==> Ready(Now(), i1) && Ready(Now(), i2)
    {
      hide *;
      if last {
        LockThree(mode, i1, i2, g);
      } else {
        LockTwo(mode, f, g);
      }
    }

    /** One displacement of a path, with its locks taken; the last one locks both insert buckets and keeps them. */
    method MoveStep(mode: Mode, hp: nat, path: array<CuckooRecord>, d: nat, i1: nat, i2: nat,
                    ghost depth: nat, ghost r: Route, ghost before: Table)
      returns (ok: bool)
      requires Open(mode) && hp == Now().s.hp && path !in Heap() && path.Length == MAX_BFS_PATH_LEN
      requires Linked(path[..], depth, hp, i1, i2) && 1 <= d <= depth && depth < MAX_BFS_PATH_LEN
      requires i1 < HashSize(hp) && i2 < HashSize(hp)
      modifies Heap()
      ensures After(mode, old(Now()), old(Heap()))
      ensures ok && d == 1 ==>
                Ready(Now(), i1) && Ready(Now(), i2) && FreeAt(Now(), path[0].bucket, path[0].slot)
      ensures Carrying(path[..], depth, r, before, old(Now()).Full(), hp, d) ==>
                ok && Carrying(path[..], depth, r, before, Now().Full(), hp, d - 1)
    {
      hide *;
      ghost var records := path[..];
      Elsewhere(path);
      OpenFacts(mode);
      LinkedStep(records, depth, hp, i1, i2, d);
      var from, to := path[d - 1], path[d];
      LockForMove(mode, i1, i2, from.bucket, to.bucket, d == 1);
      SinceFacts(mode, old(Now()), old(Heap()));
      SinceAfter(mode, old(Now()), old(Heap()));
      AfterFacts(mode, old(Now()), old(Heap()));
      OpenFacts(mode);
      ghost var b, g := Now(), Heap();
      if Carrying(records, depth, r, before, b.Full(), hp, d) {
        CarryingStep(records, depth, r, before, b.Full(), hp, b.model, d);
      }
      Elsewhere(path);
      Mine();
      ok := TryDisplace(mode, from, to);
      AfterIs(mode, b, g);
      AfterThen(mode, old(Now()), old(Heap()), b, g);
      OpenFacts(mode);
      if ok && d == 1 {
        ReadySame(b, Now(), i1);
        ReadySame(b, Now(), i2);
        FreedSource(Now(), b.Full(), from.bucket, from.slot, to.bucket, to.slot);
      }
    }

    /**
     * Moves the pairs of a path, from its end to its beginning, as long as the table is still as recorded. Whatever
     * becomes of it, the table goes on standing for the same map; if nothing changed since the search, it succeeds.
     */
    method CuckooPathMove(mode: Mode, hp: nat, path: array<CuckooRecord>, depth: nat, i1: nat, i2: nat, ghost r: Route)
      returns (ok: bool)
      requires Open(mode) && hp == Now().s.hp && path !in Heap() && path.Length == MAX_BFS_PATH_LEN
      requires Linked(path[..], depth, hp, i1, i2) && depth < MAX_BFS_PATH_LEN
      requires i1 < HashSize(hp) && i2 < HashSize(hp)
      modifies Heap()
      ensures After(mode, old(Now()), old(Heap()))
      ensures ok ==> Ready(Now(), i1) && Ready(Now(), i2) && FreeAt(Now(), path[0].bucket, path[0].slot)
      ensures Undisturbed(path[..], depth, r, old(Now()).Full(), hp) ==> ok
    {
      hide *;
      Elsewhere(path);
      OpenFacts(mode);
      AfterNow(mode);
      ghost var a, h, records := Now(), Heap(), path[..];
      CarryingStarts(records, depth, r, a.Full(), hp);
      LinkedFirst(records, depth, hp, i1, i2);
      if depth == 0 {
        ok := LockAndCheck(mode, hp, path[0].bucket, path[0].slot, i1, i2, records, r);
        AfterFacts(mode, a, h);
        Elsewhere(path);
        return;
      }
      var d: nat := depth;
      ok := true;
      while ok && d > 0
        invariant 0 <= d <= depth && path !in Heap() && path[..] == records
        invariant After(mode, a, h)
        invariant ok && d == 0 ==> Ready(Now(), i1) && Ready(Now(), i2) && FreeAt(Now(), path[0].bucket, path[0].slot)
        invariant Carrying(records, depth, r, a.Full(), a.Full(), hp, depth) ==>
                    ok && Carrying(records, depth, r, a.Full(), Now().Full(), hp, d)
        decreases d
      {
        AfterFacts(mode, a, h);
        ghost var b, g := Now(), Heap();
        ok := MoveStep(mode, hp, path, d, i1, i2, depth, r, a.Full());
        AfterThen(mode, a, h, b, g);
        AfterFacts(mode, a, h);
        Elsewhere(path);
        d := d - 1;
      }
    }

    /** The path of length 0: both insert buckets are locked, and the slot is free or has been taken meanwhile. */
    method LockAndCheck(mode: Mode, hp: nat, i: nat, j: nat, i1: nat, i2: nat, ghost records: seq<CuckooRecord>, ghost r: Route)
      returns (ok: bool)
      requires Open(mode) && hp == Now().s.hp && i1 < HashSize(hp) && i2 < HashSize(hp) && (i == i1 || i == i2) && j < SLOTS
      requires |records| > 0 && records[0].bucket == i && records[0].slot == j
      modifies Heap()
      ensures After(mode, old(Now()), old(Heap()))
      ensures ok ==> Ready(Now(), i1) && Ready(Now(), i2) && FreeAt(Now(), i, j)
      ensures Undisturbed(records, 0, r, old(Now()).Full(), hp) ==> ok
    {
      hide *;
      OpenFacts(mode);
      ghost var t := Now().Full();
      CarryingStarts(records, 0, r, t, hp);
      LockTwo(mode, i1, i2);
      SinceFacts(mode, old(Now()), old(Heap()));
      SinceAfter(mode, old(Now()), old(Heap()));
      OpenFacts(mode);
      FreeInFull(Now(), i, j);
      CurrentBuckets();
      if Carrying(records, 0, r, t, t, hp, 0) {
        CarryingEnds(records, 0, r, t, t, hp);
      }
      ok := buckets.buckets[i][j].Empty?;
    }

    /**
     * Frees a slot in one of two buckets by displacements. It fails exactly when every bucket within reach is full;
     * a path that was found can be carried out, so that the loop is left after one round.
     */
    method RunCuckoo(mode: Mode, i1: nat, i2: nat) returns (st: Status, bucket: nat, slot: nat)
      requires Open(mode) && i1 < HashSize(Now().s.hp) && i2 < HashSize(Now().s.hp)
      modifies Heap()
      ensures After(mode, old(Now()), old(Heap()))
      ensures st == if NothingFound(old(Now()).Full(), Now().s.hp, i1, i2) then Failure else Ok
      ensures st == Ok ==> Ready(Now(), i1) && Ready(Now(), i2) && FreeAt(Now(), bucket, slot) && bucket in {i1, i2}
      ensures st == Failure ==> Now().Full() == old(Now()).Full()
    {
      hide *;
      OpenFacts(mode);
      SinceNow(mode);
      AfterNow(mode);
      CurrentBuckets();
      var hp := buckets.hashpower;
      ghost var a, h := Now(), Heap();
      var path := new CuckooRecord[MAX_BFS_PATH_LEN](_ => CuckooRecord(0, 0, HashValue(0, 0)));
      Apart(path);
      bucket, slot := 0, 0;
      var done := false;
      while !done
        invariant path !in Heap() && if done then After(mode, a, h) else Since(mode, a, h)
        invariant done ==> !NothingFound(a.Full(), hp, i1, i2)
        invariant done ==> Ready(Now(), i1) && Ready(Now(), i2) && FreeAt(Now(), bucket, slot) && bucket in {i1, i2}
        decreases !done
      {
        ghost var b, g := Now(), Heap();
        SinceFacts(mode, a, h);
        var depth;
        ghost var r;
        depth, r := CuckooPathSearch(mode, hp, path, i1, i2);
        SinceThen(mode, a, h, b, g);
        SinceFacts(mode, a, h);
        SinceAfter(mode, a, h);
        OpenFacts(mode);
        PathFoundFacts(path[..], depth, r, Now().Full(), hp, i1, i2);
        if depth < 0 {
          break;
        }
        LinkedFirst(path[..], depth, hp, i1, i2);
        MigratedKept(a, Now());
        b, g := Now(), Heap();
        Elsewhere(path);
        done := CuckooPathMove(mode, hp, path, depth, i1, i2, r);
        AfterThen(mode, a, h, b, g);
        AfterFacts(mode, a, h);
        if done {
          bucket, slot := path[0].bucket, path[0].slot;
        }
      }
      AfterFacts(mode, a, h);
      st := if done then Ok else Failure;
    }

    // Insertion.

    /**
     * Finds the place to put key k, whose two buckets are locked: the key's own place if it is there, else a free
     * slot of one of its buckets, which displacements may have to be made for. Both buckets stay locked but for
     * TableFull.
     */
    method CuckooInsert(mode: Mode, k: Key, i1: nat, i2: nat) returns (pos: Position)
      requires Open(mode) && Located(Now(), k, i1, i2)
      modifies Heap()
      ensures After(mode, old(Now()), old(Heap()))
      ensures pos.status == if k in model then KeyDuplicated
                            else if NothingFound(old(Now()).Full(), Now().s.hp, i1, i2) then TableFull else Ok
      ensures pos.status == KeyDuplicated ==> HoldsAt(Now(), pos.index, pos.slot, k)
      ensures pos.status == Ok ==> FreeFor(Now(), pos.index, pos.slot, k)
      ensures pos.status == TableFull ==> Now().Full() == old(Now()).Full()
      ensures pos.status == Ok ==> Direct(old(Now()), Now(), i1, i2, pos.index, pos.slot)
    {
      hide *;
      ghost var a := Now();
      OpenFacts(mode);
      AfterNow(mode);
      CurrentBuckets();
      LookupFacts(a, k, i1, i2);
      InsertFacts(a, k, i1, i2);
      ModelNow();
      var b1 := buckets.buckets[i1];
      var absent1, res1 := TryFindInsertBucket(b1, PartialOf(k), k);
      MatchFacts(b1, res1, PartialOf(k), k);
      if !absent1 {
        LiveIn(a.s.cur, i1, res1);
        HoldsAtFacts(a, i1, res1, k);
        return Position(i1, res1, KeyDuplicated);
      }
      NotInBucket(a.s.cur, i1, PartialOf(k), k);
      var b2 := buckets.buckets[i2];
      var absent2, res2 := TryFindInsertBucket(b2, PartialOf(k), k);
      MatchFacts(b2, res2, PartialOf(k), k);
      if !absent2 {
        LiveIn(a.s.cur, i2, res2);
        HoldsAtFacts(a, i2, res2, k);
        return Position(i2, res2, KeyDuplicated);
      }
      NotInBucket(a.s.cur, i2, PartialOf(k), k);
      if res1 != -1 {
        FreeIs(a, i1, res1);
        DirectIs(a, i1, i2, i1, res1);
        return Position(i1, res1, Ok);
      }
      if res2 != -1 {
        FreeIs(a, i2, res2);
        DirectIs(a, i1, i2, i2, res2);
        return Position(i2, res2, Ok);
      }
      pos := InsertByCuckoo(mode, k, i1, i2);
      AfterFacts(mode, a, old(Heap()));
      ModelNow();
      NotDirect(a, Now(), i1, i2, pos.index, pos.slot);
    }

    /** Both buckets being full, displaces pairs; then looks for the key again, since the locks were dropped meanwhile. */
    method InsertByCuckoo(mode: Mode, k: Key, i1: nat, i2: nat) returns (pos: Position)
      requires Open(mode) && Located(Now(), k, i1, i2)
      modifies Heap()
      ensures After(mode, old(Now()), old(Heap()))
      ensures pos.status == if NothingFound(old(Now()).Full(), Now().s.hp, i1, i2) then TableFull
                            else if k in model then KeyDuplicated else Ok
      ensures pos.status == KeyDuplicated ==> HoldsAt(Now(), pos.index, pos.slot, k)
      ensures pos.status == Ok ==> FreeFor(Now(), pos.index, pos.slot, k)
      ensures pos.status == TableFull ==> Now().Full() == old(Now()).Full()
    {
      hide *;
      OpenFacts(mode);
      InsertFacts(Now(), k, i1, i2);
      var st, insertBucket, insertSlot := RunCuckoo(mode, i1, i2);
      AfterFacts(mode, old(Now()), old(Heap()));
      if st == Ok {
        LocatedStill(old(Now()), Now(), k, i1, i2);
        OpenFacts(mode);
        InsertFacts(Now(), k, i1, i2);
        ModelNow();
        pos := CuckooFind(k, PartialOf(k), i1, i2);
        if pos.status == Ok {
          return pos.(status := KeyDuplicated);
        }
        return Position(insertBucket, insertSlot, Ok);
      }
      pos := Position(0, 0, TableFull);
    }

    // The writes that change the map, each with its counter.

    method AddToBucket(mode: Mode, i: nat, j: nat, k: Key, v: Value)
      requires Open(mode) && FreeFor(Now(), i, j, k) && k !in model
      modifies this`model, locks, buckets.buckets
      ensures After(mode, old(Now()).(model := old(model)[k := v]), old(Heap())) && model == old(model)[k := v]
      ensures HoldsAt(Now(), i, j, k)
    {
      hide *;
      OpenFacts(mode);
      OpenIs(mode);
      CurrentBuckets();
      ModelNow();
      AddSnap(Now(), i, j, k, v);
      PutNew(i, j, k, v);
      Rewrote(mode, old(Now()), old(Now()).model[k := v], old(Heap()));
    }

    method PutNew(i: nat, j: nat, k: Key, v: Value)
      requires Separate() && i < |buckets.Rows()| && j < SLOTS && buckets.Rows()[i][j].Empty? && LockInd(i) < locks.Length
      modifies this`model, locks, buckets.buckets
      ensures Separate() && Heap() == old(Heap()) && Now() == AddedSnap(old(Now()), i, j, k, v)
    {
      CountFacts(locks[..], LockInd(i), 1);
      buckets.SetKV(i, j, PartialKey(Hash(k)), k, v);
      var l := LockInd(i);
      hide LockInd, PartialKey, Total, Flags;
      locks[l] := locks[l].(elemCounter := locks[l].elemCounter + 1);
      assert locks[..] == Count(old(locks[..]), l, 1);
      model := model[k := v];
    }

    method DelFromBucket(mode: Mode, i: nat, j: nat, ghost k: Key)
      requires Open(mode) && HoldsAt(Now(), i, j, k)
      modifies this`model, locks, buckets.buckets
      ensures After(mode, old(Now()).(model := old(model) - {k}), old(Heap())) && model == old(model) - {k}
    {
      hide *;
      OpenFacts(mode);
      OpenIs(mode);
      CurrentBuckets();
      ModelNow();
      HoldsAtFacts(Now(), i, j, k);
      RemoveSnap(Now(), i, j, k);
      TakeOut(i, j);
      Rewrote(mode, old(Now()), old(Now()).model - {k}, old(Heap()));
    }

    method TakeOut(i: nat, j: nat)
      requires Separate() && LiveAt(buckets.Rows(), i, j) && LockInd(i) < locks.Length
      modifies this`model, locks, buckets.buckets
      ensures Separate() && Heap() == old(Heap()) && Now() == RemovedSnap(old(Now()), i, j)
    {
      CountFacts(locks[..], LockInd(i), -1);
      model := model - {buckets.buckets[i][j].key};
      buckets.EraseKV(i, j);
      var l := LockInd(i);
      hide LockInd, Total, Flags;
      locks[l] := locks[l].(elemCounter := locks[l].elemCounter - 1);
      assert locks[..] == Count(old(locks[..]), l, -1);
    }

    /** Assigns through the reference to a stored value. */
    method Assign(mode: Mode, i: nat, j: nat, ghost k: Key, v: Value)
      requires Open(mode) && HoldsAt(Now(), i, j, k)
      modifies this`model, buckets.buckets
      ensures After(mode, old(Now()).(model := old(model)[k := v]), old(Heap())) && model == old(model)[k := v]
      ensures HoldsAt(Now(), i, j, k)
    {
      hide *;
      OpenFacts(mode);
      OpenIs(mode);
      CurrentBuckets();
      ModelNow();
      HoldsAtFacts(Now(), i, j, k);
      AssignSnap(Now(), i, j, k, v);
      WriteValue(i, j, v);
      Rewrote(mode, old(Now()), old(Now()).model[k := v], old(Heap()));
    }

    method WriteValue(i: nat, j: nat, v: Value)
      requires Separate() && LiveAt(buckets.Rows(), i, j)
      modifies this`model, buckets.buckets
      ensures Separate() && Heap() == old(Heap()) && Now() == AssignedSnap(old(Now()), i, j, v)
    {
      model := model[buckets.buckets[i][j].key := v];
      buckets.SetMapped(i, j, v);
    }

    lemma Rewrote(mode: Mode, a: Snap, m: map<Key, Value>, h: set<object?>)
      requires Separate() && Heap() == h && Becomes(a, Now(), m)
      requires a.Settled() && (mode.LockedTable? ==> a.s.AllMigrated())
      ensures After(mode, a.(model := m), h) && model == m
    {
      BecomesFacts(a, Now(), m);
      Reopen(mode);
      AfterIs(mode, a.(model := m), h);
      hide Snap.Sound, Becomes;
    }

    // Migrating everything, and resizing.

    method MigrateNow(l: nat)
      requires Sound() && l < |Now().s.migrated|
      modifies Heap()
      ensures Partly(old(Now()), old(Heap())) && l < |Now().s.migrated| && Now().s.migrated[l]
    {
      hide Snap.Sound, Migrated;
      RehashLock(l, false);
    }

    method RehashRange(start: nat, end: nat)
      requires Sound() && start <= end <= |Now().s.migrated|
      modifies Heap()
      ensures Partly(old(Now()), old(Heap())) && |Now().s.migrated| == |old(Now()).s.migrated|
      ensures forall l | start <= l < end :: Now().s.migrated[l]
    {
      hide *;
      ghost var a, h := Now(), Heap();
      PartlyNow();
      PartlyFacts(a, h);
      var i := start;
      while i < end
        invariant start <= i <= end <= |Now().s.migrated| == |a.s.migrated|
        invariant Partly(a, h)
        invariant forall l | start <= l < i :: Now().s.migrated[l]
      {
        PartlyFacts(a, h);
        ghost var b, g := Now(), Heap();
        MigrateNow(i);
        PartlyThen(a, h, b, g);
        PartlyFacts(b, g);
        FlagsStay(b, Now());
        i := i + 1;
      }
    }

    /** Nothing is left to migrate: the old buckets are freed. */
    method NoneRemaining()
      requires Sound() && Now().s.AllMigrated()
      modifies Heap()
      ensures Since(LockedTable, old(Now()), old(Heap())) && Now().s.past == [] && locks == old(locks)
    {
      ghost var a := Now();
      UnmigratedZero(a.s.migrated);
      CountStands(a, 0);
      hide Snap.Sound, Migrated, Snap.Full;
      remaining := 0;
      ghost var b := Now();
      FreeOldBuckets();
      MigratedTrans(a, b, Now());
    }

    /** Migrates all stripes that are left, split into one range per worker and one for the calling thread. */
    method RehashWithWorkers()
      requires Sound()
      modifies Heap()
      ensures Since(LockedTable, old(Now()), old(Heap())) && Now().s.past == []
    {
      hide *;
      ghost var a, h := Now(), Heap();
      PartlyNow();
      PartlyFacts(a, h);
      var extra := maxNumWorkerThreads;
      var n := locks.Length;
      var work := WorkPerThread(n, extra);
      var start := 0;
      var i := 0;
      WorkStarts(n, extra);
      while i < extra
        invariant 0 <= i <= extra && start == WorkRange(n, extra, i).0 <= n
        invariant Partly(a, h) && |Now().s.migrated| == n
        invariant forall l | 0 <= l < start :: Now().s.migrated[l]
      {
        PartlyFacts(a, h);
        ghost var b, g := Now(), Heap();
        WorkNext(n, extra, i);
        WorkFits(n, extra, i);
        RehashRange(start, start + work);
        PartlyThen(a, h, b, g);
        PartlyFacts(b, g);
        FlagsStay(b, Now());
        start := start + work;
        i := i + 1;
      }
      PartlyFacts(a, h);
      ghost var b, g := Now(), Heap();
      RehashRange(start, n);
      PartlyFacts(b, g);
      FlagsStay(b, Now());
      AllFlags(Now().s);
      PartlyThen(a, h, b, g);
      PartlyFacts(a, h);
      b, g := Now(), Heap();
      NoneRemaining();
      SinceThen(LockedTable, a, h, b, g);
    }

    /** The first step of a doubling: migrates all stripes that are left, in this thread. */
    method FinishRehash()
      requires Sound()
      modifies Heap()
      ensures Since(LockedTable, old(Now()), old(Heap())) && Now().s.past == []
    {
      hide *;
      ghost var a, h := Now(), Heap();
      PartlyNow();
      PartlyFacts(a, h);
      RehashRange(0, locks.Length);
      PartlyFacts(a, h);
      AllFlags(Now().s);
      ghost var b, g := Now(), Heap();
      NoneRemaining();
      SinceThen(LockedTable, a, h, b, g);
    }

    /** The sum of the counters. Single counters drift and may be negative, but their sum is the size of the map. */
    method Size() returns (n: nat)
      requires Sound()
      ensures n == |model|
    {
      SizeIsTotal();
      hide *;
      var s := 0;
      var l := 0;
      while l < locks.Length
        invariant 0 <= l <= locks.Length && s + Total(locks[l..]) == Total(locks[..])
      {
        TotalStep(locks[..], l);
        assert locks[..][l..] == locks[l..] && locks[..][l + 1..] == locks[l + 1..];
        s := s + locks[l].elemCounter;
        l := l + 1;
      }
      TotalNone(locks[l..]);
      n := s;
    }

    lemma SizeIsTotal()
      requires Sound()
      ensures Total(locks[..]) == |model| && locks[0..] == locks[..]
    {
      hide Total, Represents;
    }

    method LoadFactor() returns (f: real)
      requires Sound()
      ensures f == Load(|model|, Now().s.hp)
      ensures f * (Pow2(Now().s.hp) * SLOTS) as real == |model| as real
    {
      hide *;
      var n := Size();
      HpNow();
      f := Load(n, buckets.hashpower);
      LoadIsShare(n, buckets.hashpower, f);
    }

    lemma HpNow()
      ensures Now().s.hp == buckets.hashpower && Now().locks == locks[..] && Now().remaining == remaining
    {
    }

    /** Whether a resize may go ahead: the hashpower limit comes first, then the load factor, then the hashpower found. */
    method CheckResizeValidity(auto: bool, origHp: nat, newHp: nat) returns (st: Status)
      requires Sound()
      ensures st == Threw(MaximumHashpowerExceeded(newHp)) <==> maximumHashpower.Some? && maximumHashpower.value < newHp
      ensures st == Threw(LoadFactorTooLow(minimumLoadFactor)) <==>
                && !(maximumHashpower.Some? && maximumHashpower.value < newHp)
                && auto && |model| as real < minimumLoadFactor * (Pow2(Now().s.hp) * SLOTS) as real
      ensures st in {Ok, UnderExpansion, Threw(MaximumHashpowerExceeded(newHp)), Threw(LoadFactorTooLow(minimumLoadFactor))}
      ensures st in {Ok, UnderExpansion} ==> (st == Ok <==> Now().s.hp == origHp)
    {
      ModelNow();
      HpNow();
      LoadedIs(Now());
      hide Sound, Now, Load, Pow2;
      var mhp := maximumHashpower;
      if mhp.Some? && newHp > mhp.value {
        return Threw(MaximumHashpowerExceeded(newHp));
      }
      if auto {
        var f := LoadFactor();
        if f < minimumLoadFactor {
          return Threw(LoadFactorTooLow(minimumLoadFactor));
        }
      }
      st := if buckets.hashpower != origHp then UnderExpansion else Ok;
    }

    /** Replaces the locks by a bigger array with the old counters, if there are to be more buckets than locks. */
    method MaybeResizeLocks(newBucketCount: nat)
      requires Valid() && Now().s.AllMigrated()
      modifies this`locks
      ensures Valid() && Now().s.AllMigrated() && Now().Full() == old(Now()).Full()
      ensures |Now().locks| == if old(|Now().locks|) < Min(MaxLocks(), newBucketCount) then Min(MaxLocks(), newBucketCount)
                               else old(|Now().locks|)
      ensures locks == old(locks) || fresh(locks)
      ensures OnlyLocks(old(Now()), Now())
    {
      hide Sound, Valid, GrownLocks, Flags, OnlyLocks, Snap.Sound, Snap.Full;
      HpNow();
      CurrentBuckets();
      ghost var a := Now();
      LocksBound(a);
      if !(locks.Length < MaxLocks() && locks.Length < newBucketCount) {
        SameLocks(a);
        return;
      }
      var n := Min(MaxLocks(), newBucketCount);
      ghost var was := locks[..];
      var copied := locks;
      var newLocks := new Spinlock[n](l requires 0 <= l < n reads copied =>
        if l < copied.Length then copied[l] else Spinlock(0, true));
      GrownIs(newLocks[..], was, n);
      GrowSnap(a, n, newLocks);
      locks := newLocks;
      GrewNow(a, n);
    }

    /** The current buckets become the old ones, and new empty buckets the current ones. */
    method SwapInNewBuckets(newHp: nat)
      requires Separate() && oldBuckets.buckets == null && newHp == buckets.hashpower + 1
      modifies buckets, oldBuckets
      ensures Separate() && fresh(buckets.buckets) && oldBuckets.buckets == old(buckets.buckets)
      ensures buckets.hashpower == newHp && buckets.Rows() == EmptyTable(newHp)
      ensures oldBuckets.hashpower == old(buckets.hashpower) && oldBuckets.Rows() == old(buckets.Rows())
    {
      oldBuckets.Swap(buckets);
      buckets.Reset(newHp);
    }

    /** With few buckets, moves everything at once and frees the old buckets. */
    method MoveEverything()
      requires Separate() && oldBuckets.buckets != null && buckets.hashpower == oldBuckets.hashpower + 1
      requires buckets.Rows() == EmptyTable(buckets.hashpower) && Placed(oldBuckets.Rows(), oldBuckets.hashpower)
      modifies this`remaining, buckets.buckets, oldBuckets, oldBuckets.buckets
      ensures Separate() && buckets.buckets == old(buckets.buckets) && oldBuckets.buckets == null && remaining == 0
      ensures buckets.hashpower == old(buckets.hashpower)
      ensures buckets.Rows() == Doubled(old(oldBuckets.hashpower), old(oldBuckets.Rows()))
    {
      hide Doubled, Placed;
      MoveAll(oldBuckets, buckets);
      remaining := 0;
      oldBuckets.ClearAndDeallocate();
    }

    /** Marks all stripes as not migrated. */
    method UnmarkLocks()
      modifies this`remaining, locks
      ensures locks[..] == Unmarked(old(locks[..])) && remaining == locks.Length
    {
      ghost var was := locks[..];
      var l := 0;
      while l < locks.Length
        invariant 0 <= l <= locks.Length
        invariant forall x | 0 <= x < locks.Length :: locks[x] == if x < l then was[x].(isMigrated := false) else was[x]
      {
        locks[l] := locks[l].(isMigrated := false);
        l := l + 1;
      }
      remaining := locks.Length;
    }

    /** Publishes a table of twice the size, moving the pairs now or leaving that to whoever takes a lock. */
    method Publish(newHp: nat)
      requires Valid() && Now().s.AllMigrated() && Now().s.past == [] && newHp == Now().s.hp + 1
      requires |Now().locks| >= Min(MaxLocks(), Pow2(newHp))
      modifies Heap()
      ensures Valid() && PublishedAs(old(Now()), Now())
      ensures locks == old(locks) && fresh(buckets.buckets) && oldBuckets.buckets in {null, old(buckets.buckets)}
    {
      hide Sound, Valid, Doubled, Placed, PublishedAs, Snap.Sound, Snap.Full, Unmarked, EmptyTable, LockInd, Represents;
      hide Split.Wf, Flags, Split.Published;
      ghost var a := Now();
      CurrentBuckets();
      Completed(a);
      OldIsFreed();
      SwapInNewBuckets(newHp);
      if oldBuckets.Size() < MaxLocks() {
        MoveEverything();
      } else {
        UnmarkLocks();
      }
      PublishedNow(a);
    }

    /**
     * Doubles the table unless its hashpower has changed, a limit forbids it, or it is an automatic resize of a table
     * that is too empty. The doubled table stands for the same map: its buckets, once all are migrated, are the halves
     * of the old ones.
     */
    method FastDouble(mode: Mode, auto: bool, currentHp: nat) returns (st: Status)
      requires Open(mode)
      modifies Heap()
      ensures Open(mode) && Renewed()
      ensures st == Threw(MaximumHashpowerExceeded(currentHp + 1)) <==>
                old(maximumHashpower).Some? && old(maximumHashpower).value < currentHp + 1
      ensures st == Threw(LoadFactorTooLow(old(minimumLoadFactor))) <==>
                && !(old(maximumHashpower).Some? && old(maximumHashpower).value < currentHp + 1)
                && auto && |old(model)| as real < old(minimumLoadFactor) * (Pow2(old(Now()).s.hp) * SLOTS) as real
      ensures st in {Ok, UnderExpansion, Threw(MaximumHashpowerExceeded(currentHp + 1)),
                     Threw(LoadFactorTooLow(old(minimumLoadFactor)))}
      ensures st in {Ok, UnderExpansion} ==> (st == Ok <==> old(Now()).s.hp == currentHp)
      ensures if st == Ok then TwiceAsBig(old(Now()), Now()) else Now() == old(Now())
      ensures st == Ok ==> if mode.Normal? && MaxLocks() <= Pow2(currentHp) then Deferred(Now()) else Now().s.AllMigrated()
      ensures st == Ok ==> |Now().locks| == if old(|Now().locks|) < Min(MaxLocks(), Pow2(currentHp + 1))
                                            then Min(MaxLocks(), Pow2(currentHp + 1)) else old(|Now().locks|)
    {
      hide *;
      OpenFacts(mode);
      ModelNow();
      var newHp := currentHp + 1;
      st := CheckResizeValidity(auto, currentHp, newHp);
      RenewedLess();
      if st != Ok {
        return;
      }
      ghost var a := Now();
      FinishRehash();
      SinceFacts(LockedTable, a, old(Heap()));
      SoundBoth(a);
      ghost var b, h := Now(), Heap();
      label Before:
      GrowAndPublish(newHp);
      RenewedFacts@Before();
      RenewedThen(h);
      RenewedFacts();
      ghost var c := Now();
      MigratedRefl(c);
      ValidIsSound();
      SoundNow();
      if mode.LockedTable? && oldBuckets.buckets != null {
        ghost var g := Heap();
        RehashWithWorkers();
        SinceFacts(LockedTable, c, g);
        SoundBoth(c);
        RenewedStill(g);
        OpenIs(LockedTable);
      }
      OpenIs(mode);
      TwiceBetween(a, b, c, Now());
    }

    lemma SoundBoth(a: Snap)
      requires Valid() && a.Sound() && Migrated(a, Now())
      ensures |Now().locks| == |a.locks|
    {
      hide Snap.Sound, Migrated, Snap.Settled;
      MigratedLocks(a, Now());
    }

    method GrowAndPublish(newHp: nat)
      requires Open(LockedTable) && Now().s.past == [] && newHp == Now().s.hp + 1
      modifies Heap()
      ensures Valid() && TwiceAsBig(old(Now()), Now()) && Renewed()
      ensures oldBuckets.buckets == null ==> Now().s.AllMigrated()
      ensures if Pow2(old(Now()).s.hp) < MaxLocks() then Now().s.AllMigrated() else Deferred(Now())
      ensures |Now().locks| == if old(|Now().locks|) < Min(MaxLocks(), Pow2(newHp)) then Min(MaxLocks(), Pow2(newHp))
                               else old(|Now().locks|)
    {
      hide Open, Since, Valid, Sound, Separate, Now, Snap.Full, Snap.Sound, Migrated, WithinLimit, Loaded, TwiceAsBig, Deferred;
      hide Split.AllMigrated, OnlyLocks, PublishedAs, Pow2, Snap.Settled;
      ghost var a := Now();
      OpenFacts(LockedTable);
      OpenIs(LockedTable);
      MaybeResizeLocks(HashSize(newHp));
      ghost var b := Now();
      OnlyLocksFacts(a, b);
      ValidIsSound();
      SoundNow();
      Publish(newHp);
      MigratedRefl(Now());
      DoubledAtLast(a, b, Now(), Now());
      PublishedMoves(b, Now());
      if oldBuckets.buckets == null {
        OldIsGone();
      }
    }

    /**
     * Searches and, whenever the table is too full, doubles it and starts again. Automatic doubling goes on only while
     * the table is loaded enough, so the loop ends if the minimum load factor is positive or a maximum is set.
     */
    method CuckooInsertLoop(mode: Mode, k: Key, i1: nat, i2: nat) returns (pos: Position)
      requires Open(mode) && Located(Now(), k, i1, i2) && (minimumLoadFactor > 0.0 || maximumHashpower.Some?)
      modifies Heap()
      ensures Open(mode) && Grown(old(Now()), Now(), k) && Renewed()
      ensures Placement(Now(), k, pos)
    {
      hide *;
      ModelNow();
      ghost var a := Now();
      GrownRefl(a, k);
      ghost var bound := CeilingExists(a);
      var j1, j2 := i1, i2;
      RenewedLess();
      var again;
      again, pos, j1, j2 := InsertRound(mode, k, j1, j2, a, bound);
      while again
        invariant Open(mode) && Grown(a, Now(), k) && Renewed()
        invariant if again then Located(Now(), k, j1, j2) && Now().s.hp <= bound else Placement(Now(), k, pos)
        decreases again, bound - Now().s.hp
      {
        RenewedFacts();
        ghost var g := Heap();
        label Before:
        again, pos, j1, j2 := InsertRound(mode, k, j1, j2, a, bound);
        RenewedFacts@Before();
        RenewedThen(g);
      }
    }

    /** One round: a place for the key, or an exception, or a table of twice the size to try again. */
    method InsertRound(mode: Mode, k: Key, i1: nat, i2: nat, ghost a: Snap, ghost bound: nat)
      returns (again: bool, pos: Position, j1: nat, j2: nat)
      requires Open(mode) && Located(Now(), k, i1, i2) && Grown(a, Now(), k) && Ceiling(a, bound)
      modifies Heap()
      ensures Open(mode) && Grown(a, Now(), k) && Renewed()
      ensures if again then Located(Now(), k, j1, j2) && old(Now()).s.hp < Now().s.hp <= bound
              else Placement(Now(), k, pos)
    {
      hide *;
      HpNow();
      ModelNow();
      OpenFacts(mode);
      LocatedFacts(Now(), k, i1, i2);
      var hp := buckets.hashpower;
      pos := CuckooInsert(mode, k, i1, i2);
      AfterFacts(mode, old(Now()), old(Heap()));
      KeptGrown(a, old(Now()), Now(), k);
      RenewedLess();
      ModelNow();
      j1, j2 := i1, i2;
      again := false;
      if pos.status != TableFull {
        PlacementFound(Now(), k, pos);
      } else {
        ghost var b, g := Now(), Heap();
        OpenFacts(mode);
        SoundNow();
        CrampedIs(b, k, i1, i2);
        RenewedFacts();
        label Before:
        var st := FastDouble(mode, true, hp);
        RenewedFacts@Before();
        RenewedThen(g);
        RenewedFacts();
        OpenFacts(mode);
        LimitIs(b.limits, b.s.hp + 1);
        LoadedIs(b);
        if st.Threw? {
          pos := Position(0, 0, st);
          PlacementThrew(Now(), k, i1, i2, pos);
          GrownFacts(a, Now(), k);
        } else {
          GrownFacts(a, b, k);
          BelowCeiling(a, b, bound);
          TwiceFacts(b, Now());
          TwiceGrown(a, b, Now(), k);
          ghost var c, h := Now(), Heap();
          j1, j2 := SnapshotAndLockTwo(mode, k);
          SinceFacts(mode, c, h);
          SinceAfter(mode, c, h);
          AfterFacts(mode, c, h);
          KeptGrown(a, c, Now(), k);
          RenewedStill(h);
          again := true;
        }
      }
    }

    // The operations on elements, with or without a lock on the whole table.

    method FindPosition(mode: Mode, k: Key) returns (pos: Position)
      requires Open(mode)
      modifies Heap()
      ensures Since(mode, old(Now()), old(Heap())) && model == old(model)
      ensures pos.status == if k in model then Ok else KeyNotFound
      ensures k in model ==> HoldsAt(Now(), pos.index, pos.slot, k)
      ensures OnlyStripes(old(Now()), Now(), {LockInd(Home(Now().s.hp, k)), LockInd(Other(Now().s.hp, k))})
    {
      hide *;
      ModelNow();
      var i1, i2 := SnapshotAndLockTwo(mode, k);
      LocatedFacts(Now(), k, i1, i2);
      SinceFacts(mode, old(Now()), old(Heap()));
      ModelNow();
      OpenFacts(mode);
      pos := CuckooFind(k, PartialOf(k), i1, i2);
    }

    /** The value of k, if there is one. At most the stripes of the two buckets of k are migrated for it. */
    method Find(mode: Mode, k: Key) returns (v: Option<Value>)
      requires Open(mode)
      modifies Heap()
      ensures Since(mode, old(Now()), old(Heap())) && model == old(model)
      ensures OnlyStripes(old(Now()), Now(), {LockInd(Home(Now().s.hp, k)), LockInd(Other(Now().s.hp, k))})
      ensures v == if k in model then Some(model[k]) else None
    {
      hide *;
      var pos := FindPosition(mode, k);
      SinceFacts(mode, old(Now()), old(Heap()));
      v := None;
      if pos.status == Ok {
        v := ReadAt(mode, pos.index, pos.slot, k);
      }
    }

    /** Reads a stored value. */
    method ReadAt(mode: Mode, i: nat, j: nat, ghost k: Key) returns (v: Option<Value>)
      requires Open(mode) && HoldsAt(Now(), i, j, k)
      ensures k in model && v == Some(model[k])
    {
      hide *;
      OpenFacts(mode);
      CurrentBuckets();
      ModelNow();
      HoldsAtFacts(Now(), i, j, k);
      v := Some(buckets.buckets[i][j].value);
    }

    /** Applies fn to the value of k, if there is one. */
    method UpdateFn(mode: Mode, k: Key, fn: Value -> Value) returns (found: bool)
      requires Open(mode)
      modifies Heap()
      ensures found == (k in old(model))
      ensures model == if found then old(model)[k := fn(old(model)[k])] else old(model)
      ensures After(mode, old(Now()).(model := model), old(Heap()))
    {
      found := EraseFn(mode, k, v => (fn(v), false));
    }

    /** Applies fn to the value of k, if there is one, and erases the pair if fn says so. */
    method EraseFn(mode: Mode, k: Key, fn: Value -> (Value, bool)) returns (found: bool)
      requires Open(mode)
      modifies Heap()
      ensures found == (k in old(model))
      ensures !found ==> model == old(model)
      ensures found ==> var (w, e) := fn(old(model)[k]); model == if e then old(model) - {k} else old(model)[k := w]
      ensures After(mode, old(Now()).(model := model), old(Heap()))
    {
      hide *;
      ModelNow();
      OpenFacts(mode);
      var pos := FindPosition(mode, k);
      SinceAfter(mode, old(Now()), old(Heap()));
      SinceFacts(mode, old(Now()), old(Heap()));
      SameModel(old(Now()));
      found := pos.status == Ok;
      if found {
        ghost var b, g := Now(), Heap();
        var v := ReadAt(mode, pos.index, pos.slot, k);
        AfterFacts(mode, old(Now()), old(Heap()));
        Mine();
        Change(mode, pos.index, pos.slot, k, fn(v.value));
        UpdatedIs(old(model), k, fn(v.value));
        KeptBoth(old(Now()), b, b.model, model);
        AfterThen(mode, old(Now()).(model := model), old(Heap()), b.(model := model), g);
      }
    }

    /** What a functor did to the value at hand: an assignment, and possibly the erasure of the pair. */
    method Change(mode: Mode, i: nat, j: nat, ghost k: Key, r: (Value, bool))
      requires Open(mode) && HoldsAt(Now(), i, j, k)
      modifies this`model, locks, buckets.buckets
      ensures model == Updated(old(model), k, r)
      ensures After(mode, old(Now()).(model := model), old(Heap()))
    {
      hide *;
      Assign(mode, i, j, k, r.0);
      AfterFacts(mode, old(Now()).(model := model), old(Heap()));
      if r.1 {
        ghost var b, g := Now(), Heap();
        DelFromBucket(mode, i, j, k);
        KeptBoth(old(Now()), b, b.model, model);
        AfterThen(mode, old(Now()).(model := model), old(Heap()), b.(model := model), g);
      }
      UpdatedIs(old(model), k, r);
    }

    /** Puts a new pair in its place unless the key is there; either way the key's position is returned. */
    method Place(mode: Mode, k: Key, v: Value) returns (pos: Position)
      requires Open(mode) && (minimumLoadFactor > 0.0 || maximumHashpower.Some?)
      modifies Heap()
      ensures Open(mode) && Renewed() && Grown(old(Now()), Now().(model := old(model)), k)
      ensures model == if pos.status == Ok then old(model)[k := v] else old(model)
      ensures pos.status in {Ok, KeyDuplicated} ==>
                (pos.status == KeyDuplicated <==> k in old(model)) && HoldsAt(Now(), pos.index, pos.slot, k)
      ensures pos.status !in {Ok, KeyDuplicated} ==> pos.status.Threw? && Placement(Now(), k, pos)
    {
      hide *;
      ModelNow();
      ghost var a := Now();
      var i1, i2 := SnapshotAndLockTwo(mode, k);
      SinceFacts(mode, a, old(Heap()));
      ModelNow();
      RenewedLess();
      RenewedFacts();
      ghost var b, g := Now(), Heap();
      label Before:
      pos := CuckooInsertLoop(mode, k, i1, i2);
      RenewedFacts@Before();
      RenewedThen(g);
      ModelNow();
      GrownFacts(b, Now(), k);
      GrownSince(a, b, Now(), k);
      PlacementFacts(Now(), k, pos);
      SameModel(Now());
      if pos.status == Ok {
        ghost var c, h := Now(), Heap();
        RenewedFacts();
        Mine();
        AddToBucket(mode, pos.index, pos.slot, k, v);
        AfterFacts(mode, c.(model := model), h);
        RenewedStill(h);
        KeptBoth(c, Now(), model, a.model);
        KeptGrown(a, c, Now().(model := a.model), k);
      }
    }

    /**
     * Inserts the pair if the key is new; then applies the functor to the value in the table, and erases the pair if it
     * says so. Returns whether the key was new, or the exception that stopped the table from growing.
     */
    method UpraseFn(mode: Mode, k: Key, v: Value, fn: Functor) returns (inserted: bool, st: Status)
      requires Open(mode) && (minimumLoadFactor > 0.0 || maximumHashpower.Some?)
      modifies Heap()
      ensures Open(mode) && Renewed() && Grown(old(Now()), Now().(model := old(model)), k)
      ensures st == Ok || st.Threw?
      ensures st == Ok ==> inserted == (k !in old(model)) && model == Uprased(old(model), k, v, fn)
      ensures st == Ok && inserted && fn.Plain? ==> model == old(model)[k := v]
      ensures st == Ok && inserted && fn.WithContext? ==>
                var (w, e) := fn.g(v, NewlyInserted); model == if e then old(model) - {k} else old(model)[k := w]
      ensures st == Ok && !inserted ==>
                var (w, e) := if fn.Plain? then fn.f(old(model)[k]) else fn.g(old(model)[k], AlreadyExisted);
                model == if e then old(model) - {k} else old(model)[k := w]
      ensures st.Threw? ==> model == old(model) && Placement(Now(), k, Position(0, 0, st))
    {
      hide *;
      ModelNow();
      var pos := Place(mode, k, v);
      ModelNow();
      inserted, st := pos.status == Ok, Ok;
      if pos.status.Threw? {
        PlacementAnywhere(Now(), k, pos);
        return false, pos.status;
      }
      ghost var b, g := Now(), Heap();
      RenewedFacts();
      Mine();
      var w := ReadAt(mode, pos.index, pos.slot, k);
      var r := Invoke(fn, w.value, if inserted then NewlyInserted else AlreadyExisted);
      Change(mode, pos.index, pos.slot, k, r);
      UprasedIs(old(model), k, v, fn);
      UpraseLaws(old(model), k, v, fn);
      AfterFacts(mode, b.(model := model), g);
      RenewedStill(g);
      KeptBoth(b, Now(), model, old(model));
      KeptGrown(old(Now()), b.(model := old(model)), Now().(model := old(model)), k);
    }

    /** Inserts a pair if its key is new. */
    method Insert(mode: Mode, k: Key, v: Value) returns (inserted: bool, st: Status)
      requires Open(mode) && (minimumLoadFactor > 0.0 || maximumHashpower.Some?)
      modifies Heap()
      ensures Open(mode) && Renewed() && Grown(old(Now()), Now().(model := old(model)), k)
      ensures st == Ok || st.Threw?
      ensures st == Ok ==> inserted == (k !in old(model)) && model == if inserted then old(model)[k := v] else old(model)
      ensures st.Threw? ==> model == old(model) && Placement(Now(), k, Position(0, 0, st))
    {
      hide Open, Now, Heap, Renewed, Grown, Placement;
      inserted, st := UpraseFn(mode, k, v, Plain(w => (w, false)));
      assert k in old(model) ==> old(model)[k := old(model)[k]] == old(model);
    }

    /** Inserts a pair; if its key is there already, assigns the value to it. */
    method InsertOrAssign(mode: Mode, k: Key, v: Value) returns (inserted: bool, st: Status)
      requires Open(mode) && (minimumLoadFactor > 0.0 || maximumHashpower.Some?)
      modifies Heap()
      ensures Open(mode) && Renewed() && Grown(old(Now()), Now().(model := old(model)), k)
      ensures st == Ok || st.Threw?
      ensures st == Ok ==> inserted == (k !in old(model)) && model == old(model)[k := v]
      ensures st.Threw? ==> model == old(model) && Placement(Now(), k, Position(0, 0, st))
    {
      hide Open, Now, Heap, Renewed, Grown, Placement;
      inserted, st := UpraseFn(mode, k, v, Plain(w => (v, false)));
    }

    method Erase(mode: Mode, k: Key) returns (found: bool)
      requires Open(mode)
      modifies Heap()
      ensures found == (k in old(model)) && model == old(model) - {k}
      ensures After(mode, old(Now()).(model := model), old(Heap()))
    {
      hide Open, Now, Heap, After;
      found := EraseFn(mode, k, v => (v, true));
    }

    // Operations on the whole table.

    /** Removes everything, and all of what was left to migrate. */
    method Clear()
      requires Valid()
      modifies Heap()
      ensures Valid() && model == map[] && Now().s.AllMigrated() && Heap() - {null} <= old(Heap())
      ensures Now().limits == old(Now()).limits && Now().s.hp == old(Now()).s.hp
    {
      hide Snap.Sound, Snap.Settled, LockInd, EmptyTable, Flags;
      ghost var a := Now();
      LocksBound(a);
      buckets.Clear();
      remaining := 0;
      oldBuckets.ClearAndDeallocate();
      ResetLocks();
      model := map[];
      ClearedSnap(a, Now());
    }

    method ResetLocks()
      modifies locks
      ensures forall l | 0 <= l < locks.Length :: locks[l] == Spinlock(0, true)
    {
      var l := 0;
      while l < locks.Length
        invariant 0 <= l <= locks.Length && forall x | 0 <= x < l :: locks[x] == Spinlock(0, true)
      {
        locks[l] := locks[l].(elemCounter := 0, isMigrated := true);
        l := l + 1;
      }
    }

    method SetMaxNumWorkerThreads(extra: nat)
      requires Valid()
      modifies this`maxNumWorkerThreads
      ensures Valid() && Heap() == old(Heap())
      ensures Now() == old(Now()).(limits := old(Now()).limits.(maxNumWorkerThreads := extra))
    {
      LimitsStand(Now(), Limits(minimumLoadFactor, maximumHashpower, extra));
      hide Snap.Sound;
      maxNumWorkerThreads := extra;
    }

    /** Inserts the pairs of one bucket of another table; stops at an exception. */
    method InsertBucket(b: Bucket, ghost rows: Table, ghost m: map<Key, Value>, ghost i: nat, ghost least: nat)
      returns (done: bool)
      requires Open(Normal) && Now().limits.minimumLoadFactor > 0.0 && Forced(least, Now().s.hp, model)
      requires i < |rows| && b == rows[i] && RowsOf(rows, m) && CopiedUpTo(rows, m, model, i, 0)
      modifies Heap()
      ensures Open(Normal) && Renewed() && Now().limits == old(Now()).limits && Now().s.hp >= old(Now()).s.hp
      ensures done ==> CopiedUpTo(rows, m, model, i + 1, 0) && Forced(least, Now().s.hp, model)
    {
      hide *;
      RenewedLess();
      ModelNow();
      ghost var a := Now();
      var j := 0;
      done := true;
      while done && j < |b|
        invariant 0 <= j <= |b| && Open(Normal) && Renewed() && Now().limits == a.limits && Now().s.hp >= a.s.hp
        invariant done ==> CopiedUpTo(rows, m, model, i, j) && Forced(least, Now().s.hp, model)
      {
        RenewedFacts();
        ghost var c, g := Now(), Heap();
        ModelNow();
        label Before:
        if b[j].Live? {
          var inserted, st := Insert(Normal, b[j].key, b[j].value);
          RenewedFacts@Before();
          RenewedThen(g);
          GrownFacts(c, Now().(model := c.model), b[j].key);
          done := st == Ok;
          if done {
            ForcedBy(least, c, Now().(model := c.model), model, b[j].key) by {
              WithinInserted(c.model, model, b[j].key, b[j].value);
            }
          }
        }
        if done {
          CopySlot(rows, m, c.model, model, i, j);
        }
        j := j + 1;
      }
      if done {
        CopyBucketDone(rows, m, model, i);
      }
    }

    method InsertRange(rows: Table, start: nat, end: nat, ghost m: map<Key, Value>, ghost least: nat) returns (done: bool)
      requires Open(Normal) && Now().limits.minimumLoadFactor > 0.0 && Forced(least, Now().s.hp, model)
      requires start <= end <= |rows| && RowsOf(rows, m) && CopiedUpTo(rows, m, model, start, 0)
      modifies Heap()
      ensures Open(Normal) && Renewed() && Now().limits == old(Now()).limits && Now().s.hp >= old(Now()).s.hp
      ensures done ==> CopiedUpTo(rows, m, model, end, 0) && Forced(least, Now().s.hp, model)
    {
      hide *;
      RenewedLess();
      ghost var a := Now();
      var i := start;
      done := true;
      while done && i < end
        invariant start <= i <= end && Open(Normal) && Renewed() && Now().limits == a.limits && Now().s.hp >= a.s.hp
        invariant done ==> CopiedUpTo(rows, m, model, i, 0) && Forced(least, Now().s.hp, model)
      {
        RenewedFacts();
        ghost var g := Heap();
        label Before:
        done := InsertBucket(rows[i], rows, m, i, least);
        RenewedFacts@Before();
        RenewedThen(g);
        i := i + 1;
      }
    }

    /**
     * Rebuilds the table at hashpower newHp at least, by inserting all pairs into a new table and taking over its
     * buckets. `completed` is false if an insertion into the new table threw; nothing is said about that case.
     */
    method ExpandSimple(mode: Mode, auto: bool, newHp: nat) returns (st: Status, completed: bool)
      requires Open(mode)
      modifies Heap()
      ensures completed ==> Open(mode) && Renewed()
      ensures st == Threw(MaximumHashpowerExceeded(newHp)) <==> old(maximumHashpower).Some? && old(maximumHashpower).value < newHp
      ensures st == Threw(LoadFactorTooLow(old(minimumLoadFactor))) <==>
                && !(old(maximumHashpower).Some? && old(maximumHashpower).value < newHp)
                && auto && |old(model)| as real < old(minimumLoadFactor) * (Pow2(old(Now()).s.hp) * SLOTS) as real
      ensures st in {Ok, Threw(MaximumHashpowerExceeded(newHp)), Threw(LoadFactorTooLow(old(minimumLoadFactor)))}
      ensures completed && st == Ok ==> Rebuilt(old(Now()), Now(), newHp)
      ensures st != Ok ==> completed && Now() == old(Now())
    {
      hide *;
      OpenFacts(mode);
      HpNow();
      ModelNow();
      RenewedLess();
      completed := true;
      st := CheckResizeValidity(auto, buckets.hashpower, newHp);
      if st != Ok {
        return;
      }
      ghost var a, h := Now(), Heap();
      RehashWithWorkers();
      SinceFacts(LockedTable, a, h);
      OpenFacts(LockedTable);
      OpenIs(LockedTable);
      CurrentBuckets();
      Completed(Now());
      ModelNow();
      var newMap;
      newMap, completed := BuildCopy(buckets.buckets[..], Now().s.hp, model, newHp, maxNumWorkerThreads);
      if !completed {
        return;
      }
      ghost var g := Heap();
      Mine();
      TakeOver(newMap);
      ReopenAll(mode);
      ModelNow();
      RenewedParts(g);
      RebuiltIs(a, Now(), newHp);
    }

    /** Exchanges buckets with another table that stands for the same map, after providing enough locks. */
    method TakeOver(newMap: CuckooHashMap)
      requires Open(LockedTable) && newMap.Open(LockedTable) && newMap.model == model
      requires newMap != this && newMap.buckets !in Heap() && newMap.buckets.buckets !in Heap()
      modifies this`locks, buckets, newMap.buckets
      ensures Open(LockedTable) && model == old(model) && Now().limits == old(Now()).limits
      ensures Now().s.hp == old(newMap.Now()).s.hp
      ensures locks == old(locks) || fresh(locks)
      ensures buckets.buckets == old(newMap.buckets.buckets) && oldBuckets.buckets == old(oldBuckets.buckets)
    {
      hide Snap.Sound, Snap.Full, Represents, Snap.Settled, Split.AllMigrated, OnlyLocks;
      Completed(newMap.Now());
      ghost var a := Now();
      MaybeResizeLocks(newMap.buckets.Size());
      ghost var b := Now();
      OnlyLocksFacts(a, b);
      buckets.Swap(newMap.buckets);
      Replaced(b, Now());
    }

    /**
     * Resizes the table to hashpower n, or to more if its pairs do not fit. Returns false exactly when n is its hashpower
     * already or an exception is thrown, so for a table that is not to shrink exactly when its size stays the same.
     */
    method Rehash(mode: Mode, n: nat) returns (resized: bool, st: Status, completed: bool)
      requires Open(mode)
      modifies Heap()
      ensures completed ==> Open(mode) && Renewed()
      ensures if old(Now()).s.hp != n && old(maximumHashpower).Some? && old(maximumHashpower).value < n
              then st == Threw(MaximumHashpowerExceeded(n)) && completed else st == Ok
      ensures completed && st == Ok ==> Rebuilt(old(Now()), Now(), n) && resized == (old(Now()).s.hp != n)
      ensures completed && st == Ok ==> ResizeFlag(old(Now()), Now(), n, resized)
      ensures completed && !resized ==> Now() == old(Now())
    {
      hide *;
      HpNow();
      OpenFacts(mode);
      RenewedLess();
      if n == buckets.hashpower {
        ForcedStarts(n, model);
        ModelNow();
        RebuiltIs(Now(), Now(), n);
        SameSizeFlag(Now(), n);
        return false, Ok, true;
      }
      st, completed := ExpandSimple(mode, false, n);
      resized := st == Ok;
      if completed && st == Ok {
        OpenFacts(mode);
        SoundNow();
        RebuiltFlag(old(Now()), Now(), n);
      }
    }

    /** Makes room for n elements; `want` is the least hashpower with enough of it. */
    method Reserve(mode: Mode, n: nat) returns (resized: bool, st: Status, completed: bool, ghost want: nat)
      requires Open(mode)
      modifies Heap()
      ensures n <= Capacity(want) && forall h: nat | n <= Capacity(h) :: want <= h
      ensures completed ==> Open(mode) && Renewed()
      ensures if old(Now()).s.hp != want && old(maximumHashpower).Some? && old(maximumHashpower).value < want
              then st == Threw(MaximumHashpowerExceeded(want)) && completed else st == Ok
      ensures completed && st == Ok ==> Rebuilt(old(Now()), Now(), want) && resized == (old(Now()).s.hp != want)
      ensures completed && st == Ok ==> ResizeFlag(old(Now()), Now(), want, resized) && RoomFor(Now(), n)
      ensures completed && !resized ==> Now() == old(Now())
    {
      hide *;
      HpNow();
      OpenFacts(mode);
      var newHp := ReserveCalc(n);
      want := newHp;
      RenewedLess();
      if newHp == buckets.hashpower {
        ForcedStarts(newHp, model);
        ModelNow();
        RebuiltIs(Now(), Now(), newHp);
        SameSizeFlag(Now(), newHp);
        HasRoom(Now(), n, newHp);
        return false, Ok, true, want;
      }
      label Before:
      st, completed := ExpandSimple(mode, false, newHp);
      resized := st == Ok;
      if completed {
        RenewedFacts@Before();
        RenewedThen(old(Heap()));
      }
      if completed && st == Ok {
        RebuiltFacts(old(Now()), Now(), newHp);
        OpenFacts(mode);
        SoundNow();
        RebuiltFlag(old(Now()), Now(), newHp);
        HasRoom(Now(), n, newHp);
      }
    }

    /** Finding a position under a lock on the whole table takes no lock and migrates nothing. */
    method FindInLocked(k: Key) returns (pos: Position)
      requires Open(LockedTable)
      ensures pos.status == if k in model then Ok else KeyNotFound
      ensures k in model ==> HoldsAt(Now(), pos.index, pos.slot, k)
    {
      hide *;
      HpNow();
      OpenFacts(LockedTable);
      CurrentBuckets();
      var hp := buckets.hashpower;
      var i1 := IndexHash(hp, Hash(k));
      var i2 := AltIndex(hp, PartialKey(Hash(k)), i1);
      HomeAndOther(hp, k, i1, i2);
      CandidateBound(Now().Full(), hp, k);
      OpenIs(LockedTable);
      BucketReady(LockedTable, i1);
      BucketReady(LockedTable, i2);
      AreLocated(Now(), k, i1, i2);
      pos := CuckooFind(k, PartialOf(k), i1, i2);
    }
  }

  ghost function AfterRehash(a: Snap, l: nat): Snap
    requires a.s.Wf() && l < |a.s.migrated| == |a.locks|
  {
    a.(s := a.s.Rehash(l), locks := MarkMigrated(a.locks, l))
  }

  lemma StripeReady(a: Snap, l: nat)
    requires a.Sound() && l < |a.locks| && !a.locks[l].isMigrated
    ensures a.pastRef != null && a.pastHp + 1 == a.s.hp && l < MaxLocks() && a.s.Wf() && a.s.PastReadable()
    ensures |a.s.migrated| == |a.locks| && a.s.migrated == Flags(a.locks) && !a.s.migrated[l]
    ensures |a.s.cur| == Pow2(a.s.hp) && |a.s.past| == Pow2(a.pastHp) && Placed(a.s.past, a.pastHp)
    ensures HashSize(a.pastHp) >= MaxLocks()
    ensures forall r | 0 <= r < |a.s.cur| && LockInd(r) == l :: a.s.cur[r] == EmptyBucket()
  {
    hide Represents, LockInd, Placed, Split.PastReadable, EmptyBucket;
    assert !a.s.migrated[l];
    RehashReady(a.s, l);
    PastShape(a.s);
  }

  lemma PastShape(s: Split)
    requires s.PastReadable()
    ensures |s.past| == Pow2(s.hp - 1) && Placed(s.past, s.hp - 1) && HashSize(s.hp - 1) >= MaxLocks()
  {
    hide Placed, MaxLocks;
  }

  /** The buckets of lock l have been filled from the old ones, and no others. */
  ghost predicate StripeWritten(s: Split, cur: Table, l: nat) {
    && s.hp >= 1 && Shaped(s.past, s.hp - 1) && |cur| == |s.cur| == Pow2(s.hp)
    && forall r | 0 <= r < |cur| :: cur[r] == if LockInd(r) == l then NewBucket(s.hp - 1, s.past, r) else s.cur[r]
  }

  /** The state after moving the buckets of lock l and setting its flag. */
  lemma RehashedNow(a: Snap, b: Snap, l: nat)
    requires a.Sound() && l < |a.locks| && !a.locks[l].isMigrated
    requires StripeWritten(a.s, b.s.cur, l)
    requires b.locks == MarkMigrated(a.locks, l) && b.s.migrated == Flags(b.locks)
    requires b == a.(s := a.s.(cur := b.s.cur, migrated := b.s.migrated), locks := b.locks)
    ensures b.Sound() && Migrated(a, b) && b.s.migrated == a.s.migrated[l := true]
  {
    hide *;
    StripeReady(a, l);
    MarkFacts(a.locks, l);
    RehashMigrates(a, l);
    WrittenCurrent(a.s, b.s.cur, l);
    assert b == a.(s := a.s.Rehash(l), locks := MarkMigrated(a.locks, l));
    AfterRehashIs(a, l);
  }

  lemma IsWritten(s: Split, cur: Table, l: nat)
    requires s.hp >= 1 && Shaped(s.past, s.hp - 1) && |cur| == |s.cur| == Pow2(s.hp)
    requires forall r | 0 <= r < |cur| :: cur[r] == if LockInd(r) == l then NewBucket(s.hp - 1, s.past, r) else s.cur[r]
    ensures StripeWritten(s, cur, l)
  {
    hide NewBucket, LockInd, Shaped;
  }

  lemma WrittenCurrent(s: Split, cur: Table, l: nat)
    requires s.Wf() && l < |s.migrated| && !s.migrated[l] && s.PastReadable() && StripeWritten(s, cur, l)
    ensures s.(cur := cur, migrated := s.migrated[l := true]) == s.Rehash(l)
  {
    hide NewBucket, LockInd, Split.Wf, Split.PastReadable, Split.Rehash, Shaped, Pow2;
    RehashedCurrent(s, cur, l);
  }

  lemma AfterRehashIs(a: Snap, l: nat)
    requires a.s.Wf() && l < |a.s.migrated| == |a.locks|
    ensures AfterRehash(a, l) == a.(s := a.s.Rehash(l), locks := MarkMigrated(a.locks, l))
  {
  }

  lemma RehashMigrates(a: Snap, l: nat)
    requires a.Sound() && l < |a.locks|
    ensures AfterRehash(a, l).Sound() && Migrated(a, AfterRehash(a, l))
  {
    GoodRehash(a.s, a.locks, a.model, l);
    hide Represents;
  }

  /** Where key k has its place, or why it cannot get one. */
  ghost predicate Placement(b: Snap, k: Key, pos: Position) {
    match pos.status
    case Ok => k !in b.model && FreeFor(b, pos.index, pos.slot, k)
    case KeyDuplicated => HoldsAt(b, pos.index, pos.slot, k)
    case Threw(e) =>
      && k !in b.model && NothingFound(b.Full(), b.s.hp, Home(b.s.hp, k), Other(b.s.hp, k))
      && if WithinLimit(b.limits, b.s.hp + 1) then e == LoadFactorTooLow(b.limits.minimumLoadFactor) && !Loaded(b)
         else e == MaximumHashpowerExceeded(b.s.hp + 1)
    case _ => false
  }

  lemma PlacementFound(b: Snap, k: Key, pos: Position)
    requires pos.status == Ok ==> k !in b.model && FreeFor(b, pos.index, pos.slot, k)
    requires pos.status == KeyDuplicated ==> HoldsAt(b, pos.index, pos.slot, k)
    requires pos.status == Ok || pos.status == KeyDuplicated
    ensures Placement(b, k, pos)
  {
    hide FreeFor, HoldsAt;
  }

  lemma PlacementThrew(b: Snap, k: Key, i1: nat, i2: nat, pos: Position)
    requires pos.status.Threw? && k !in b.model && i1 == Home(b.s.hp, k) && i2 == Other(b.s.hp, k)
    requires NothingFound(b.Full(), b.s.hp, i1, i2)
    requires pos.status == Threw(MaximumHashpowerExceeded(b.s.hp + 1)) <==> !WithinLimit(b.limits, b.s.hp + 1)
    requires pos.status == Threw(LoadFactorTooLow(b.limits.minimumLoadFactor)) <==>
               WithinLimit(b.limits, b.s.hp + 1) && !Loaded(b)
    requires WithinLimit(b.limits, b.s.hp + 1) ==> !Loaded(b)
    ensures Placement(b, k, pos)
  {
    hide NothingFound, Snap.Full, Loaded, Home, Other;
  }

  lemma PlacementFacts(b: Snap, k: Key, pos: Position)
    requires Placement(b, k, pos)
    ensures pos.status == Ok || pos.status == KeyDuplicated || pos.status.Threw?
    ensures pos.status == Ok ==> k !in b.model && FreeFor(b, pos.index, pos.slot, k)
    ensures pos.status == KeyDuplicated ==> k in b.model && HoldsAt(b, pos.index, pos.slot, k)
    ensures pos.status.Threw? ==> k !in b.model
  {
    if pos.status == KeyDuplicated {
      HoldsAtFacts(b, pos.index, pos.slot, k);
    }
    hide FreeFor, HoldsAt, NothingFound, Loaded, Home, Other, Snap.Full;
  }

  lemma PlacementAnywhere(b: Snap, k: Key, pos: Position)
    requires Placement(b, k, pos) && pos.status.Threw?
    ensures Placement(b, k, Position(0, 0, pos.status))
  {
    hide NothingFound, Loaded, Home, Other, Snap.Full;
  }

  lemma UprasedIs(m: map<Key, Value>, k: Key, v: Value, fn: Functor)
    ensures k in m ==> Uprased(m, k, v, fn) == Updated(m, k, Invoke(fn, m[k], AlreadyExisted))
    ensures k !in m ==> Uprased(m, k, v, fn) == Updated(m[k := v], k, Invoke(fn, v, NewlyInserted))
  {
    hide Invoke;
  }

  /** What an upsert does: a functor is given a new value only if it asks to be told that the value is new. */
  lemma UpraseLaws(m: map<Key, Value>, k: Key, v: Value, fn: Functor)
    ensures k !in m && fn.Plain? ==> Uprased(m, k, v, fn) == m[k := v]
    ensures k !in m && fn.WithContext? ==>
              var (w, e) := fn.g(v, NewlyInserted); Uprased(m, k, v, fn) == if e then m - {k} else m[k := w]
    ensures k in m ==>
              var (w, e) := if fn.Plain? then fn.f(m[k]) else fn.g(m[k], AlreadyExisted);
              Uprased(m, k, v, fn) == if e then m - {k} else m[k := w]
  {
  }

  lemma DefaultIsPositive()
    ensures DEFAULT_MINIMUM_LOAD_FACTOR > 0.0
  {
  }

  /**
   * A new table with the pairs of all rows, inserted range by range as the workers of a parallel run would. Gives up at
   * an exception.
   */
  method BuildCopy(rows: Table, ghost hp: nat, ghost m: map<Key, Value>, newHp: nat, extra: nat)
    returns (newMap: CuckooHashMap, done: bool)
    requires Represents(rows, hp, m)
    ensures fresh(newMap) && fresh(newMap.buckets) && fresh(newMap.buckets.buckets)
    ensures done ==> newMap.Open(LockedTable) && newMap.model == m && Forced(newHp, newMap.Now().s.hp, m)
  {
    hide *;
    DefaultIsPositive();
    newMap := new CuckooHashMap(Capacity(newHp));
    newMap.SetMaxNumWorkerThreads(extra);
    newMap.Mine();
    newMap.ReadyToFill(newHp);
    RepresentsRows(rows, hp, m);
    CopyStarts(rows, m, newMap.model);
    ForcedStarts(newHp, newMap.model);
    var n := |rows|;
    var work := WorkPerThread(n, extra);
    var start, i := 0, 0;
    WorkStarts(n, extra);
    done := true;
    while done && i <= extra
      invariant 0 <= i <= extra + 1 && (i <= extra ==> start == WorkRange(n, extra, i).0 <= n)
      invariant newMap.Open(Normal) && newMap.Now().limits.minimumLoadFactor > 0.0
      invariant forall o | o in newMap.Heap() && o != null :: fresh(o)
      invariant done ==>
                  CopiedUpTo(rows, m, newMap.model, if i <= extra then start else n, 0) && Forced(newHp, newMap.Now().s.hp, newMap.model)
    {
      WorkFits(n, extra, i);
      if i < extra {
        WorkNext(n, extra, i);
      }
      ghost var g := newMap.Heap();
      label Before:
      var end := if i < extra then start + work else n;
      done := newMap.InsertRange(rows, start, end, m, newHp);
      newMap.RenewedFacts@Before();
      start := end;
      i := i + 1;
    }
    newMap.OpenFacts(Normal);
    newMap.CurrentBuckets();
    newMap.Mine();
    if done {
      CopyDone(rows, hp, m, newMap.model);
      ghost var a, h := newMap.Now(), newMap.Heap();
      newMap.ModelNow();
      newMap.RehashWithWorkers();
      newMap.SinceFacts(LockedTable, a, h);
      newMap.ModelNow();
      newMap.OpenFacts(LockedTable);
      newMap.CurrentBuckets();
      newMap.Mine();
      assert newMap.buckets.buckets in newMap.Heap() - {null};
    }
  }

  lemma HomeAndOther(hp: nat, k: Key, i1: nat, i2: nat)
    requires i1 == IndexHash(hp, Hash(k)) && i2 == AltIndex(hp, PartialKey(Hash(k)), i1)
    ensures i1 == Home(hp, k) && i2 == Other(hp, k)
  {
  }
}
