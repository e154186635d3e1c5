/** Doubling stripe by stripe: old and new buckets with one migration flag per lock, and the full table they stand for. */
module Lazy {
  import opened Bits
  import opened Params
  import opened Hashing
  import opened Rows
  import opened Doubling

  /** The state that a lazy doubling is spread over. `past` holds the old buckets; it is empty once they are freed. */
  datatype Split = Split(hp: nat, cur: Table, past: Table, migrated: seq<bool>) {

    predicate AllMigrated() {
      forall l | 0 <= l < |migrated| :: migrated[l]
    }

    /** Old buckets are still needed: they exist, and are many enough for each to lie in one stripe of locks. */
    ghost predicate PastReadable() {
      && |migrated| == MaxLocks()
      && hp >= 1 && HashSize(hp - 1) >= MaxLocks()
      && Shaped(past, hp - 1) && Placed(past, hp - 1)
    }

    ghost predicate Wf() {
      && Shaped(cur, hp)
      && Min(MaxLocks(), Pow2(hp)) <= |migrated| <= MaxLocks()
      && (forall i | 0 <= i < |cur| :: LockInd(i) < |migrated|)
      && (!AllMigrated() ==> PastReadable())
      && (forall i | 0 <= i < |cur| && !migrated[LockInd(i)] :: cur[i] == EmptyBucket())
    }

    /** The buckets the table would have if every stripe were migrated now. */
    ghost function Effective(): (t: Table)
      requires Wf()
      ensures |t| == |cur|
    {
      seq(|cur|, i requires 0 <= i < |cur| => if migrated[LockInd(i)] then cur[i] else NewBucket(hp - 1, past, i))
    }

    /** What rehash_lock does for stripe l. */
    ghost function Rehash(l: nat): (s: Split)
      requires Wf() && l < |migrated|
      ensures s.hp == hp && s.past == past && s.migrated == migrated[l := true] && |s.cur| == |cur|
      ensures forall i | 0 <= i < |cur| ::
        s.cur[i] == if LockInd(i) == l && !migrated[l] then NewBucket(hp - 1, past, i) else cur[i]
    {
      if migrated[l] then this else
        this.(cur := seq(|cur|, i requires 0 <= i < |cur| =>
                       if LockInd(i) == l then NewBucket(hp - 1, past, i) else cur[i]),
              migrated := migrated[l := true])
    }

    ghost function RehashAll(order: seq<nat>): (s: Split)
      requires Wf() && forall x | 0 <= x < |order| :: order[x] < |migrated|
      ensures s.Wf() && s.hp == hp && s.past == past && |s.migrated| == |migrated|
      decreases |order|
    {
      if order == [] then this else
        RehashKeeps(this, order[0]);
        Rehash(order[0]).RehashAll(order[1..])
    }

    /** The publication step of cuckoo_fast_double, when everything has been migrated. */
    ghost function Published(): (s: Split)
      requires Wf()
      ensures s.hp == hp + 1
    {
      if HashSize(hp) < MaxLocks() then
        Split(hp + 1, Doubled(hp, cur), [], migrated)
      else
        Split(hp + 1, EmptyTable(hp + 1), cur, seq(|migrated|, _ => false))
    }
  }

  lemma LockIndBound(hp: nat, n: nat, i: nat)
    requires i < Pow2(hp) && n >= Min(MaxLocks(), Pow2(hp))
    ensures LockInd(i) < n
  {
    LockIndMod(i);
    if Pow2(hp) < MaxLocks() {
      SmallMod(i, MaxLocks());
    }
  }

  /** What moving the buckets of an un-migrated lock needs: old buckets to read and empty buckets to write. */
  lemma RehashReady(s: Split, l: nat)
    requires s.Wf() && l < |s.migrated| && !s.migrated[l]
    ensures l < MaxLocks() && s.PastReadable()
    ensures forall i | 0 <= i < |s.cur| && LockInd(i) == l :: s.cur[i] == EmptyBucket()
  {
  }

  lemma RehashedCurrent(s: Split, cur: Table, l: nat)
    requires s.Wf() && l < |s.migrated| && !s.migrated[l] && s.PastReadable() && |cur| == |s.cur| == Pow2(s.hp)
    requires forall i | 0 <= i < |cur| :: cur[i] == if LockInd(i) == l then NewBucket(s.hp - 1, s.past, i) else s.cur[i]
    ensures s.(cur := cur, migrated := s.migrated[l := true]) == s.Rehash(l)
  {
    hide NewBucket, LockInd, Split.Wf, Split.PastReadable, Split.Rehash, Shaped, Placed, Pow2;
    assert cur == s.Rehash(l).cur;
  }

  /** Migrating a stripe leaves the full table, bucket by bucket, as it was. */
  lemma RehashKeeps(s: Split, l: nat)
    requires s.Wf() && l < |s.migrated|
    ensures s.Rehash(l).Wf() && s.Rehash(l).Effective() == s.Effective()
  {
    var r := s.Rehash(l);
    assert !r.AllMigrated() ==> !s.AllMigrated();
    assert r.Wf();
    assert r.Effective() == s.Effective();
  }

  lemma RehashTwice(s: Split, l: nat, k: nat)
    requires s.Wf() && l < |s.migrated| && k < |s.migrated|
    ensures s.Rehash(l).Wf() && var r := s.Rehash(l).Rehash(k);
            && r.hp == s.hp && r.past == s.past && r.migrated == s.migrated[l := true][k := true] && |r.cur| == |s.cur|
            && forall i | 0 <= i < |s.cur| ::
                 r.cur[i] == if (LockInd(i) == l || LockInd(i) == k) && !s.migrated[LockInd(i)]
                             then NewBucket(s.hp - 1, s.past, i) else s.cur[i]
  {
    hide *;
    RehashKeeps(s, l);
  }

  /** Migrations of two stripes commute. */
  lemma RehashCommutes(s: Split, l: nat, k: nat)
    requires s.Wf() && l < |s.migrated| && k < |s.migrated|
    ensures s.Rehash(l).Wf() && s.Rehash(k).Wf() && s.Rehash(l).Rehash(k) == s.Rehash(k).Rehash(l)
  {
    RehashTwice(s, l, k);
    RehashTwice(s, k, l);
    hide *;
    var a, b := s.Rehash(l).Rehash(k), s.Rehash(k).Rehash(l);
    assert a.migrated == b.migrated;
    assert a.cur == b.cur;
  }

  /** Migrating stripes in any order, with repetitions, ends in the full table once all of them are covered. */
  lemma {:induction false} AnyOrder(s: Split, order: seq<nat>)
    requires s.Wf() && forall x | 0 <= x < |order| :: order[x] < |s.migrated|
    ensures s.RehashAll(order).Effective() == s.Effective()
    ensures forall l | 0 <= l < |s.migrated| :: s.RehashAll(order).migrated[l] <==> s.migrated[l] || l in order
    ensures (forall l | 0 <= l < |s.migrated| :: s.migrated[l] || l in order)
            ==> s.RehashAll(order).AllMigrated() && s.RehashAll(order).cur == s.Effective()
    decreases |order|
  {
    if order != [] {
      RehashKeeps(s, order[0]);
      AnyOrder(s.Rehash(order[0]), order[1..]);
    }
    var r := s.RehashAll(order);
    if r.AllMigrated() {
      AllMigratedIsCurrent(r);
    }
  }

  lemma AllMigratedIsCurrent(s: Split)
    requires s.Wf() && s.AllMigrated()
    ensures s.Effective() == s.cur
  {
  }

  lemma LocksCover(hp: nat, n: nat)
    requires n >= Min(MaxLocks(), Pow2(hp))
    ensures forall i: nat | i < Pow2(hp) :: LockInd(i) < n
  {
    forall i: nat | i < Pow2(hp)
      ensures LockInd(i) < n
    {
      LockIndBound(hp, n, i);
    }
  }

  lemma PublishedWf(s: Split)
    requires s.Wf() && s.AllMigrated() && Placed(s.cur, s.hp)
    requires |s.migrated| >= Min(MaxLocks(), Pow2(s.hp + 1))
    ensures s.Published().Wf()
  {
    LocksCover(s.hp + 1, |s.migrated|);
    Pow2Increasing(s.hp, s.hp + 1);
    hide NewBucket, LockInd;
  }

  /** Publishing the doubled table, lazily or at once, yields exactly the eagerly doubled table. */
  lemma PublishedDoubles(s: Split)
    requires s.Wf() && s.AllMigrated() && Placed(s.cur, s.hp)
    requires |s.migrated| >= Min(MaxLocks(), Pow2(s.hp + 1))
    ensures s.Published().Wf() && s.Published().Effective() == Doubled(s.hp, s.Effective())
  {
    PublishedWf(s);
    AllMigratedIsCurrent(s);
    hide NewBucket, LockInd;
    assert s.Published().Effective() == Doubled(s.hp, s.cur);
  }

  /** Writing a slot under a migrated lock writes the same slot of the full table. */
  lemma PutEffective(s: Split, i: nat, j: nat, x: Slot)
    requires s.Wf() && i < |s.cur| && j < SLOTS && s.migrated[LockInd(i)]
    ensures s.(cur := Put(s.cur, i, j, x)).Wf()
    ensures s.(cur := Put(s.cur, i, j, x)).Effective() == Put(s.Effective(), i, j, x)
  {
    hide NewBucket, LockInd, Split.PastReadable, EmptyBucket, MaxLocks, Pow2;
    var r := s.(cur := Put(s.cur, i, j, x));
    PutWf(s, i, j, x);
    assert r.Effective() == Put(s.Effective(), i, j, x);
  }

  lemma PutWf(s: Split, i: nat, j: nat, x: Slot)
    requires s.Wf() && i < |s.cur| && j < SLOTS && s.migrated[LockInd(i)]
    ensures s.(cur := Put(s.cur, i, j, x)).Wf() && j < |s.cur[i]|
  {
    hide LockInd, EmptyBucket, MaxLocks, Pow2, Placed;
  }

  /** Freeing the old buckets once every stripe is migrated loses nothing. */
  lemma FreeKeeps(s: Split)
    requires s.Wf() && s.AllMigrated()
    ensures s.(past := []).Wf() && s.(past := []).Effective() == s.Effective()
  {
    AllMigratedIsCurrent(s);
    AllMigratedIsCurrent(s.(past := []));
  }
}
