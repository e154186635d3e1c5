/** The whole state of a table as a value, what makes it represent a map, and what each elementary change does to it. */
module State {
  import opened Bits
  import opened Params
  import opened Hashing
  import opened Rows
  import opened Doubling
  import opened Lazy
  import opened Locks

  /** The buckets, old buckets and per-lock data represent the map m, and the counters add up to its size. */
  ghost predicate Good(s: Split, locks: seq<Spinlock>, m: map<Key, Value>) {
    && s.Wf() && s.migrated == Flags(locks)
    && Represents(s.Effective(), s.hp, m)
    && Total(locks) == |m|
  }

  lemma GoodInitially(s: Split, locks: seq<Spinlock>)
    requires s.cur == EmptyTable(s.hp) && s.migrated == Flags(locks) && s.AllMigrated()
    requires Min(Pow2(s.hp), MaxLocks()) <= |locks| <= MaxLocks() && forall l | 0 <= l < |locks| :: locks[l].elemCounter == 0
    ensures Good(s, locks, map[])
  {
    LocksCover(s.hp, |locks|);
    AllMigratedIsCurrent(s);
    EmptyRepresents(s.hp);
    TotalZero(locks);
  }

  /** What a lookup may rely on in a bucket whose lock is migrated. */
  lemma BucketFacts(s: Split, locks: seq<Spinlock>, m: map<Key, Value>, i: nat)
    requires Good(s, locks, m) && i < |s.cur| && s.migrated[LockInd(i)]
    ensures forall j | LiveAt(s.cur, i, j) ::
      s.cur[i][j].partial == PartialOf(s.cur[i][j].key) && s.cur[i][j].key in m && m[s.cur[i][j].key] == s.cur[i][j].value
  {
    var t := s.Effective();
    hide Home, Other, PartialOf;
    forall j | LiveAt(s.cur, i, j)
      ensures s.cur[i][j].partial == PartialOf(s.cur[i][j].key)
      ensures s.cur[i][j].key in m && m[s.cur[i][j].key] == s.cur[i][j].value
    {
      assert LiveAt(t, i, j) && t[i][j] == s.cur[i][j];
    }
  }

  /** Migrating the stripes of a key's two buckets is enough to look the key up in the current buckets. */
  lemma Lookup(s: Split, locks: seq<Spinlock>, m: map<Key, Value>, k: Key)
    requires Good(s, locks, m)
    ensures Home(s.hp, k) < |s.cur| && Other(s.hp, k) < |s.cur|
    ensures s.migrated[LockInd(Home(s.hp, k))] && s.migrated[LockInd(Other(s.hp, k))] ==>
              (k in m <==> StoredIn(s.cur, Home(s.hp, k), k) || StoredIn(s.cur, Other(s.hp, k), k))
  {
    CandidateBound(s.cur, s.hp, k);
    if s.migrated[LockInd(Home(s.hp, k))] && s.migrated[LockInd(Other(s.hp, k))] {
      var t := s.Effective();
      Locate(t, s.hp, m, k);
      SameBucket(s.cur, t, Home(s.hp, k), k);
      SameBucket(s.cur, t, Other(s.hp, k), k);
    }
  }

  lemma SameBucket(t: Table, r: Table, i: nat, k: Key)
    requires i < |t| == |r| && t[i] == r[i]
    ensures StoredIn(t, i, k) <==> StoredIn(r, i, k)
  {
    if StoredIn(t, i, k) {
      var j :| LiveAt(t, i, j) && t[i][j].key == k;
      assert LiveAt(r, i, j);
    }
    if StoredIn(r, i, k) {
      var j :| LiveAt(r, i, j) && r[i][j].key == k;
      assert LiveAt(t, i, j);
    }
  }

  function MarkMigrated(locks: seq<Spinlock>, l: nat): seq<Spinlock>
    requires l < |locks|
  {
    locks[l := locks[l].(isMigrated := true)]
  }

  function Count(locks: seq<Spinlock>, l: nat, d: int): seq<Spinlock>
    requires l < |locks|
  {
    locks[l := locks[l].(elemCounter := locks[l].elemCounter + d)]
  }

  lemma CountFacts(locks: seq<Spinlock>, l: nat, d: int)
    requires l < |locks|
    ensures Flags(Count(locks, l, d)) == Flags(locks) && Total(Count(locks, l, d)) == Total(locks) + d
  {
    TotalUpdate(locks, l, locks[l].(elemCounter := locks[l].elemCounter + d));
  }

  lemma MarkFacts(locks: seq<Spinlock>, l: nat)
    requires l < |locks|
    ensures Flags(MarkMigrated(locks, l)) == Flags(locks)[l := true] && Total(MarkMigrated(locks, l)) == Total(locks)
  {
    TotalUpdate(locks, l, locks[l].(isMigrated := true));
  }

  lemma GoodRehash(s: Split, locks: seq<Spinlock>, m: map<Key, Value>, l: nat)
    requires Good(s, locks, m) && l < |locks|
    ensures Good(s.Rehash(l), MarkMigrated(locks, l), m) && s.Rehash(l).Effective() == s.Effective()
  {
    RehashKeeps(s, l);
    MarkFacts(locks, l);
  }

  lemma GoodFree(s: Split, locks: seq<Spinlock>, m: map<Key, Value>)
    requires Good(s, locks, m) && s.AllMigrated()
    ensures Good(s.(past := []), locks, m) && s.(past := []).Effective() == s.Effective() == s.cur
  {
    FreeKeeps(s);
    AllMigratedIsCurrent(s);
  }

  /** The elementary writes, at a slot (i, j) whose lock is migrated. */
  lemma GoodAdd(s: Split, locks: seq<Spinlock>, m: map<Key, Value>, i: nat, j: nat, k: Key, v: Value)
    requires Good(s, locks, m) && i < |s.cur| && j < SLOTS && s.migrated[LockInd(i)]
    requires s.cur[i][j].Empty? && IsCandidate(s.hp, k, i) && k !in m
    ensures Good(s.(cur := Put(s.cur, i, j, Live(PartialOf(k), k, v))), Count(locks, LockInd(i), 1), m[k := v])
  {
    PutEffective(s, i, j, Live(PartialOf(k), k, v));
    AddPair(s.Effective(), s.hp, m, i, j, k, v);
    CountFacts(locks, LockInd(i), 1);
    assert |m[k := v]| == |m| + 1;
  }

  lemma GoodRemove(s: Split, locks: seq<Spinlock>, m: map<Key, Value>, i: nat, j: nat)
    requires Good(s, locks, m) && LiveAt(s.cur, i, j) && s.migrated[LockInd(i)]
    ensures s.cur[i][j].key in m
    ensures Good(s.(cur := Put(s.cur, i, j, Empty)), Count(locks, LockInd(i), -1), m - {s.cur[i][j].key})
  {
    assert LiveAt(s.Effective(), i, j);
    PutEffective(s, i, j, Empty);
    RemovePair(s.Effective(), s.hp, m, i, j);
    CountFacts(locks, LockInd(i), -1);
    RemoveSize(m, s.cur[i][j].key);
  }

  lemma RemoveSize(m: map<Key, Value>, k: Key)
    requires k in m
    ensures |m - {k}| == |m| - 1
  {
    assert (m - {k})[k := m[k]] == m;
  }

  lemma OverwriteSize(m: map<Key, Value>, k: Key, v: Value)
    requires k in m
    ensures |m[k := v]| == |m|
  {
    assert m[k := v].Keys == m.Keys;
  }

  lemma GoodSet(s: Split, locks: seq<Spinlock>, m: map<Key, Value>, i: nat, j: nat, v: Value)
    requires Good(s, locks, m) && LiveAt(s.cur, i, j) && s.migrated[LockInd(i)]
    ensures s.cur[i][j].key in m
    ensures Good(s.(cur := Put(s.cur, i, j, s.cur[i][j].(value := v))), locks, m[s.cur[i][j].key := v])
  {
    assert LiveAt(s.Effective(), i, j);
    PutEffective(s, i, j, s.cur[i][j].(value := v));
    SetValue(s.Effective(), s.hp, m, i, j, v);
    OverwriteSize(m, s.cur[i][j].key, v);
  }

  /** A displacement between two buckets whose locks are migrated moves no counter and keeps the map. */
  lemma GoodDisplace(s: Split, locks: seq<Spinlock>, m: map<Key, Value>, f: nat, fs: nat, g: nat, gs: nat)
    requires Good(s, locks, m) && LiveAt(s.cur, f, fs) && s.migrated[LockInd(f)]
    requires g < |s.cur| && gs < SLOTS && s.migrated[LockInd(g)] && s.cur[g][gs].Empty?
    requires g == AltIndex(s.hp, s.cur[f][fs].partial, f)
    ensures Good(s.(cur := Displaced(s.cur, f, fs, g, gs)), locks, m)
    ensures s.(cur := Displaced(s.cur, f, fs, g, gs)).Effective() == Displaced(s.Effective(), f, fs, g, gs)
  {
    hide Represents, AltIndex, Split.Wf, Split.Effective, LockInd, Total, Flags, Put, Displaced;
    WideRow(s, g);
    var t, p := s.Effective(), s.(cur := Put(s.cur, g, gs, s.cur[f][fs]));
    SlotsAlike(s, f, fs);
    SlotsAlike(s, g, gs);
    DisplaceKeeps(t, s.hp, m, f, fs, g, gs);
    PutEffective(s, g, gs, s.cur[f][fs]);
    PutSizes(s.cur, f, fs, g, gs);
    PutEffective(p, f, fs, Empty);
    DisplacedTwice(s.cur, f, fs, g, gs);
    DisplacedTwice(t, f, fs, g, gs);
  }

  /** A slot under a migrated lock is the same in the current buckets and in the full table. */
  lemma SlotsAlike(s: Split, i: nat, j: nat)
    requires s.Wf() && i < |s.cur| && s.migrated[LockInd(i)] && j < |s.cur[i]|
    ensures |s.Effective()| == |s.cur| && s.Effective()[i] == s.cur[i] && j < SLOTS
    ensures LiveAt(s.cur, i, j) ==> LiveAt(s.Effective(), i, j)
  {
    hide LockInd, Split.PastReadable, NewBucket;
  }

  lemma WideRow(s: Split, i: nat)
    requires s.Wf() && i < |s.cur|
    ensures |s.cur[i]| == SLOTS
  {
    hide LockInd, Split.PastReadable;
  }

  lemma PutSizes(t: Table, f: nat, fs: nat, g: nat, gs: nat)
    requires LiveAt(t, f, fs) && g < |t| && gs < |t[g]|
    ensures var r := Put(t, g, gs, t[f][fs]); |r| == |t| && |r[f]| == |t[f]|
  {
  }

  lemma DisplacedTwice(t: Table, f: nat, fs: nat, g: nat, gs: nat)
    requires LiveAt(t, f, fs) && g < |t| && gs < |t[g]|
    ensures var r := Put(t, g, gs, t[f][fs]);
            |r| == |t| && |r[f]| == |t[f]| && Displaced(t, f, fs, g, gs) == Put(r, f, fs, Empty)
  {
  }

  /** Growing the lock array by fresh locks. */
  lemma GoodGrow(s: Split, locks: seq<Spinlock>, m: map<Key, Value>, n: nat)
    requires Good(s, locks, m) && s.AllMigrated() && |locks| <= n <= MaxLocks()
    ensures Good(s.(migrated := Flags(GrownLocks(locks, n))), GrownLocks(locks, n), m)
    ensures s.(migrated := Flags(GrownLocks(locks, n))).Effective() == s.Effective()
  {
    var more := seq(n - |locks|, _ => Spinlock(0, true));
    TotalAppend(locks, more);
    TotalZero(more);
    AllMigratedIsCurrent(s);
    GrownFlags(locks, n);
    AllMigratedIsCurrent(s.(migrated := Flags(GrownLocks(locks, n))));
  }

  lemma GrownFlags(locks: seq<Spinlock>, n: nat)
    requires |locks| <= n
    ensures |Flags(GrownLocks(locks, n))| == n
    ensures forall l | 0 <= l < n :: Flags(GrownLocks(locks, n))[l] == if l < |locks| then Flags(locks)[l] else true
  {
  }

  function GrownLocks(locks: seq<Spinlock>, n: nat): seq<Spinlock>
    requires |locks| <= n
  {
    locks + seq(n - |locks|, _ => Spinlock(0, true))
  }

  function Unmarked(locks: seq<Spinlock>): (r: seq<Spinlock>)
    ensures |r| == |locks|
    ensures forall l | 0 <= l < |r| :: r[l] == locks[l].(isMigrated := false)
  {
    seq(|locks|, l requires 0 <= l < |locks| => locks[l].(isMigrated := false))
  }

  /** The locks after publishing: all un-migrated when the doubling is lazy. */
  function PublishedLocks(hp: nat, locks: seq<Spinlock>): seq<Spinlock> {
    if HashSize(hp) < MaxLocks() then locks else Unmarked(locks)
  }

  lemma GoodPublish(s: Split, locks: seq<Spinlock>, m: map<Key, Value>)
    requires Good(s, locks, m) && s.AllMigrated() && |locks| >= Min(MaxLocks(), Pow2(s.hp + 1))
    ensures Good(s.Published(), PublishedLocks(s.hp, locks), m)
    ensures s.Published().Effective() == Doubled(s.hp, s.Effective())
  {
    GoodCurrent(s, locks, m);
    PublishGood(s, locks, m);
  }

  lemma GoodCurrent(s: Split, locks: seq<Spinlock>, m: map<Key, Value>)
    requires Good(s, locks, m) && s.AllMigrated()
    ensures s.Wf() && s.migrated == Flags(locks) && Total(locks) == |m|
    ensures s.Effective() == s.cur && Shaped(s.cur, s.hp) && Represents(s.cur, s.hp, m) && Placed(s.cur, s.hp)
  {
    AllMigratedIsCurrent(s);
  }

  lemma PublishGood(s: Split, locks: seq<Spinlock>, m: map<Key, Value>)
    requires s.Wf() && s.migrated == Flags(locks) && Total(locks) == |m|
    requires s.Effective() == s.cur && Represents(s.cur, s.hp, m) && Placed(s.cur, s.hp) && Shaped(s.cur, s.hp)
    requires s.AllMigrated() && |s.migrated| >= Min(MaxLocks(), Pow2(s.hp + 1))
    ensures Good(s.Published(), PublishedLocks(s.hp, locks), m)
    ensures s.Published().Effective() == Doubled(s.hp, s.Effective())
  {
    hide *;
    PublishedDoubles(s);
    DoubledRepresents(s.hp, s.cur, m);
    PublishedFlags(s, locks);
    assert Good(s.Published(), PublishedLocks(s.hp, locks), m) by {
      GoodFrom(s.Published(), PublishedLocks(s.hp, locks), m);
    }
  }

  lemma GoodFrom(s: Split, locks: seq<Spinlock>, m: map<Key, Value>)
    requires s.Wf() && s.migrated == Flags(locks) && Represents(s.Effective(), s.hp, m) && Total(locks) == |m|
    ensures Good(s, locks, m)
  {
    hide Represents, Flags, Total, Split.Wf, Split.Effective;
  }

  lemma PublishedFlags(s: Split, locks: seq<Spinlock>)
    requires s.Wf() && s.migrated == Flags(locks)
    ensures s.Published().migrated == Flags(PublishedLocks(s.hp, locks))
    ensures Total(PublishedLocks(s.hp, locks)) == Total(locks)
  {
    TotalSame(locks, PublishedLocks(s.hp, locks));
    hide Doubled;
  }
}
