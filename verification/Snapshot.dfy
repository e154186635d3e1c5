/** Everything a table's fields hold at one moment, as one value, and the relation that migrations leave between two moments. */
module Snapshot {
  import opened Bits
  import opened Params
  import opened Hashing
  import opened Rows
  import opened Doubling
  import opened Lazy
  import opened Locks
  import opened State
  import opened Paths
  import opened Sizing
  import opened Counting
  import opened Frontier
  import opened Records
  import opened Scan

  datatype Limits = Limits(minimumLoadFactor: real, maximumHashpower: Option<nat>, maxNumWorkerThreads: nat)

  /** The contents of a table, with the references to the memory that holds them. */
  datatype Snap = Snap(s: Split, locks: seq<Spinlock>, model: map<Key, Value>, remaining: nat, limits: Limits,
                       locksRef: array<Spinlock>, curRef: array?<Bucket>, pastRef: array?<Bucket>, pastHp: nat) {

    /** All is well but for the count of remaining lazy migrations. */
    ghost predicate Sound() {
      && Good(s, locks, model)
      && (!s.AllMigrated() ==> pastRef != null && pastHp + 1 == s.hp)
    }

    /** The number of remaining lazy migrations is right as well. */
    ghost predicate Settled() {
      remaining == Unmigrated(s.migrated)
    }

    /** The buckets that the table would have if everything were migrated. */
    ghost function Full(): Table {
      if s.Wf() then s.Effective() else []
    }
  }

  /** From a to b some stripes may have been migrated, and nothing else has happened. */
  ghost predicate Migrated(a: Snap, b: Snap) {
    && b.model == a.model && b.limits == a.limits && b.locksRef == a.locksRef && b.curRef == a.curRef
    && b.pastHp == a.pastHp && (b.pastRef == a.pastRef || b.pastRef == null)
    && b.s.hp == a.s.hp && b.Full() == a.Full() && |b.s.cur| == |a.s.cur| && |b.s.migrated| == |a.s.migrated|
    && forall l | 0 <= l < |a.s.migrated| && a.s.migrated[l] :: b.s.migrated[l]
  }

  lemma MigratedRefl(a: Snap)
    ensures Migrated(a, a)
  {
  }

  lemma MigratedTrans(a: Snap, b: Snap, c: Snap)
    requires Migrated(a, b) && Migrated(b, c)
    ensures Migrated(a, c)
  {
    hide Snap.Full;
  }

  lemma StillMigrated(a: Snap, b: Snap, l: nat)
    requires Migrated(a, b) && l < |a.s.migrated| && a.s.migrated[l]
    ensures l < |b.s.migrated| && b.s.migrated[l]
  {
    hide Snap.Full;
  }

  /** From a to b the stripes of these locks have been migrated, as far as they had not been, and no others. */
  ghost predicate OnlyStripes(a: Snap, b: Snap, ls: set<nat>) {
    && |b.s.migrated| == |a.s.migrated|
    && forall l | 0 <= l < |a.s.migrated| :: b.s.migrated[l] <==> a.s.migrated[l] || l in ls
  }

  lemma OnlyOne(a: Snap, b: Snap, l: nat)
    requires l < |a.s.migrated| && b.s.migrated == a.s.migrated[l := true]
    ensures OnlyStripes(a, b, {l})
  {
  }

  lemma OnlyThen(a: Snap, b: Snap, c: Snap, ls: set<nat>, ms: set<nat>)
    requires OnlyStripes(a, b, ls) && OnlyStripes(b, c, ms)
    ensures OnlyStripes(a, c, ls + ms)
  {
  }

  lemma OnlyNone(a: Snap, ls: set<nat>)
    requires a.s.AllMigrated()
    ensures OnlyStripes(a, a, ls)
  {
  }

  lemma MigratedLocks(a: Snap, b: Snap)
    requires a.Sound() && b.Sound() && Migrated(a, b)
    ensures |b.locks| == |a.locks|
  {
    hide Represents, LockInd, Snap.Full;
  }

  /** What migrations never change. */
  lemma MigratedFacts(a: Snap, b: Snap)
    requires Migrated(a, b)
    ensures b.model == a.model && b.s.hp == a.s.hp && b.Full() == a.Full() && b.limits == a.limits
    ensures a.s.AllMigrated() ==> b.s.AllMigrated()
    ensures |b.s.cur| == |a.s.cur| && |b.s.migrated| == |a.s.migrated|
    ensures forall i | LockInd(i) < |a.s.migrated| && a.s.migrated[LockInd(i)] ::
      LockInd(i) < |b.s.migrated| && b.s.migrated[LockInd(i)]
  {
    hide Snap.Full, LockInd;
  }

  /** Bucket i may be read and written in the current buckets. */
  predicate Ready(a: Snap, i: nat) {
    i < |a.s.cur| && LockInd(i) < |a.s.migrated| && a.s.migrated[LockInd(i)]
  }

  lemma SoundFacts(a: Snap)
    requires a.Sound()
    ensures a.s.Wf() && a.Full() == a.s.Effective()
    ensures Shaped(a.Full(), a.s.hp) && Placed(a.Full(), a.s.hp) && Represents(a.Full(), a.s.hp, a.model)
    ensures |a.s.cur| == HashSize(a.s.hp) == |a.Full()| && |a.locks| == |a.s.migrated| && a.s.migrated == Flags(a.locks)
    ensures forall i | 0 <= i < |a.s.cur| :: |a.s.cur[i]| == SLOTS && LockInd(i) < |a.locks|
    ensures a.s.AllMigrated() ==> forall i: nat | i < |a.s.cur| :: Ready(a, i)
  {
    hide Placed, Unique, Holds, LockInd;
  }

  lemma ReadyBucket(a: Snap, i: nat)
    requires a.Sound() && Ready(a, i)
    ensures i < |a.Full()| && a.s.cur[i] == a.Full()[i] && |a.s.cur[i]| == SLOTS
  {
    hide Represents;
  }

  /** i1 and i2 are the two buckets of k, and both may be read and written. */
  ghost predicate Located(a: Snap, k: Key, i1: nat, i2: nat) {
    i1 == Home(a.s.hp, k) && i2 == Other(a.s.hp, k) && Ready(a, i1) && Ready(a, i2)
  }

  /** Slot (i, j) of the current buckets holds key k and its value. */
  ghost predicate HoldsAt(a: Snap, i: nat, j: nat, k: Key) {
    Ready(a, i) && LiveAt(a.s.cur, i, j) && a.s.cur[i][j].key == k && k in a.model && a.s.cur[i][j].value == a.model[k]
  }

  /** Slot (i, j) of the current buckets is free and k may be put there. */
  ghost predicate FreeFor(a: Snap, i: nat, j: nat, k: Key) {
    Ready(a, i) && j < |a.s.cur[i]| == SLOTS && a.s.cur[i][j].Empty? && IsCandidate(a.s.hp, k, i)
  }

  /** What a lookup needs: where k can be, and that every live slot there holds a pair of the map with its partial key. */
  lemma LookupFacts(a: Snap, k: Key, i1: nat, i2: nat)
    requires a.Sound() && Located(a, k, i1, i2)
    ensures i1 < |a.s.cur| && i2 < |a.s.cur| && |a.s.cur[i1]| == |a.s.cur[i2]| == SLOTS && Ready(a, i1) && Ready(a, i2)
    ensures k in a.model <==> StoredIn(a.s.cur, i1, k) || StoredIn(a.s.cur, i2, k)
    ensures forall j | LiveAt(a.s.cur, i1, j) ::
      a.s.cur[i1][j].partial == PartialOf(a.s.cur[i1][j].key) && HoldsAt(a, i1, j, a.s.cur[i1][j].key)
    ensures forall j | LiveAt(a.s.cur, i2, j) ::
      a.s.cur[i2][j].partial == PartialOf(a.s.cur[i2][j].key) && HoldsAt(a, i2, j, a.s.cur[i2][j].key)
  {
    SoundFacts(a);
    Lookup(a.s, a.locks, a.model, k);
    BucketFacts(a.s, a.locks, a.model, i1);
    BucketFacts(a.s, a.locks, a.model, i2);
    hide Good, Home, Other, PartialOf, LockInd, Represents;
  }

  /** From a to b pairs may have moved between their buckets, but the table stands for the same map. */
  ghost predicate Kept(a: Snap, b: Snap) {
    && b.model == a.model && b.limits == a.limits && b.s.hp == a.s.hp
    && b.locksRef == a.locksRef && b.curRef == a.curRef && |b.locks| == |a.locks|
  }

  lemma SameModel(a: Snap)
    ensures a.(model := a.model) == a
  {
  }

  /** Two changes of the map in a row. */
  lemma KeptBoth(a: Snap, b: Snap, m: map<Key, Value>, n: map<Key, Value>)
    requires Kept(a.(model := m), b)
    ensures Kept(a.(model := n), b.(model := n))
  {
  }

  lemma KeptRefl(a: Snap)
    ensures Kept(a, a)
  {
  }

  lemma KeptTrans(a: Snap, b: Snap, c: Snap)
    requires Kept(a, b) && Kept(b, c)
    ensures Kept(a, c)
  {
  }

  lemma MigratedKept(a: Snap, b: Snap)
    requires a.Sound() && b.Sound() && Migrated(a, b)
    ensures Kept(a, b)
  {
    hide Represents, Snap.Full;
  }

  /** What a write to the current buckets has to establish; the locks may only change in their counters. */
  lemma Rewritten(a: Snap, cur: Table, locks: seq<Spinlock>, m: map<Key, Value>)
    requires a.Sound() && Good(a.s.(cur := cur), locks, m)
    ensures var b := a.(s := a.s.(cur := cur), locks := locks, model := m);
            && b.Sound() && (a.Settled() ==> b.Settled()) && (a.s.AllMigrated() ==> b.s.AllMigrated())
            && b.s.Wf() && b.Full() == b.s.Effective() && |b.locks| == |a.locks| && |b.s.cur| == |a.s.cur|
  {
    hide Represents, LockInd;
  }

  /** Slot (i, j) of the current buckets may be written, and is free. */
  predicate FreeAt(a: Snap, i: nat, j: nat) {
    Ready(a, i) && j < |a.s.cur[i]| && a.s.cur[i][j].Empty?
  }

  lemma FreedSource(a: Snap, t: Table, f: nat, fs: nat, g: nat, gs: nat)
    requires a.Sound() && Ready(a, f)
    requires f < |t| && fs < |t[f]| && t[f][fs].Live? && g < |t| && gs < |t[g]| && a.Full() == Displaced(t, f, fs, g, gs)
    ensures FreeAt(a, f, fs)
  {
    ReadyBucket(a, f);
    hide Snap.Sound, Snap.Full;
  }

  lemma FreeInFull(a: Snap, i: nat, j: nat)
    requires a.Sound() && Ready(a, i)
    ensures i < |a.Full()| && i < |a.s.cur| && a.s.cur[i] == a.Full()[i] && |a.s.cur[i]| == SLOTS
    ensures FreeAt(a, i, j) <==> j < |a.Full()[i]| && a.Full()[i][j].Empty?
  {
    ReadyBucket(a, i);
    hide Snap.Sound, Snap.Full;
  }

  function DisplacedSnap(a: Snap, f: nat, fs: nat, g: nat, gs: nat): Snap
    requires LiveAt(a.s.cur, f, fs) && g < |a.s.cur| && gs < |a.s.cur[g]|
  {
    a.(s := a.s.(cur := Displaced(a.s.cur, f, fs, g, gs)))
  }

  /** Moving a pair between two ready buckets moves it in the full table and keeps everything in order. */
  lemma DisplaceSnap(a: Snap, f: nat, fs: nat, g: nat, gs: nat)
    requires a.Sound() && Ready(a, f) && Ready(a, g) && LiveAt(a.s.cur, f, fs) && gs < SLOTS
    requires gs < |a.s.cur[g]| && a.s.cur[g][gs].Empty? && g == AltIndex(a.s.hp, a.s.cur[f][fs].partial, f)
    ensures LiveAt(a.Full(), f, fs) && g < |a.Full()| && gs < |a.Full()[g]|
    ensures var b := DisplacedSnap(a, f, fs, g, gs);
            && b.Sound() && Kept(a, b) && b.Full() == Displaced(a.Full(), f, fs, g, gs)
            && (a.Settled() ==> b.Settled()) && (a.s.AllMigrated() ==> b.s.AllMigrated())
            && |b.s.cur| == |a.s.cur| && b.s.migrated == a.s.migrated
  {
    ReadyBucket(a, f);
    ReadyBucket(a, g);
    GoodDisplace(a.s, a.locks, a.model, f, fs, g, gs);
    hide *;
    Rewritten(a, Displaced(a.s.cur, f, fs, g, gs), a.locks, a.model);
    DisplacedSnapIs(a, f, fs, g, gs);
  }

  lemma ReadySame(a: Snap, b: Snap, i: nat)
    requires Ready(a, i) && |b.s.cur| == |a.s.cur| && b.s.migrated == a.s.migrated
    ensures Ready(b, i)
  {
    hide LockInd;
  }

  /** A displacement that passed its checks is one to the alternate bucket. */
  lemma MayMoveFacts(a: Snap, from: CuckooRecord, to: CuckooRecord)
    requires a.Sound() && Ready(a, from.bucket) && Ready(a, to.bucket) && from.slot < SLOTS && to.slot < SLOTS
    requires from.hv.partial == PartialKey(from.hv.hash) && to.bucket == AltIndex(a.s.hp, from.hv.partial, from.bucket)
    ensures from.bucket < |a.Full()| && to.bucket < |a.Full()|
    ensures |a.Full()[from.bucket]| == |a.Full()[to.bucket]| == SLOTS
    ensures from.bucket < |a.s.cur| && a.s.cur[from.bucket] == a.Full()[from.bucket]
    ensures to.bucket < |a.s.cur| && a.s.cur[to.bucket] == a.Full()[to.bucket]
    ensures MayMove(a.Full(), from, to) ==>
              && LiveAt(a.s.cur, from.bucket, from.slot) && a.s.cur[to.bucket][to.slot].Empty?
              && to.bucket == AltIndex(a.s.hp, a.s.cur[from.bucket][from.slot].partial, from.bucket)
  {
    ReadyBucket(a, from.bucket);
    ReadyBucket(a, to.bucket);
    BucketFacts(a.s, a.locks, a.model, from.bucket);
    hide Good, AltIndex, PartialKey, LockInd, Represents, Snap.Full;
  }

  lemma DisplacedSnapIs(a: Snap, f: nat, fs: nat, g: nat, gs: nat)
    requires LiveAt(a.s.cur, f, fs) && g < |a.s.cur| && gs < |a.s.cur[g]|
    ensures var b := DisplacedSnap(a, f, fs, g, gs);
            && b == a.(s := a.s.(cur := Displaced(a.s.cur, f, fs, g, gs)), locks := a.locks, model := a.model)
            && Kept(a, b) && |b.s.cur| == |a.s.cur| && b.s.migrated == a.s.migrated
  {
    hide LockInd;
  }

  /** What an insertion needs to know after having looked through the two buckets of its key. */
  lemma InsertFacts(a: Snap, k: Key, i1: nat, i2: nat)
    requires a.Sound() && Located(a, k, i1, i2)
    ensures i1 < |a.s.cur| && i2 < |a.s.cur| && |a.s.cur[i1]| == |a.s.cur[i2]| == SLOTS && Ready(a, i1) && Ready(a, i2)
    ensures i1 < HashSize(a.s.hp) && i2 < HashSize(a.s.hp)
    ensures !Full(a.s.cur[i1]) || !Full(a.s.cur[i2]) ==> !NothingFound(a.Full(), a.s.hp, i1, i2)
    ensures forall j | FreeAt(a, i1, j) :: FreeFor(a, i1, j, k)
    ensures forall j | FreeAt(a, i2, j) :: FreeFor(a, i2, j, k)
  {
    SoundFacts(a);
    ReadyBucket(a, i1);
    ReadyBucket(a, i2);
    if NothingFound(a.Full(), a.s.hp, i1, i2) {
      NothingFoundFull(a.Full(), a.s.hp, i1, i2);
    }
    hide Snap.Sound, Snap.Full, NothingFound, Represents, Placed, LockInd, Home, Other;
  }

  lemma HoldsAtFacts(a: Snap, i: nat, j: nat, k: Key)
    requires HoldsAt(a, i, j, k)
    ensures k in a.model && Ready(a, i) && LiveAt(a.s.cur, i, j) && i < |a.s.cur| && j < |a.s.cur[i]|
    ensures a.s.cur[i][j].Live? && a.s.cur[i][j].key == k && a.s.cur[i][j].value == a.model[k]
  {
    hide Ready;
  }

  lemma LocatedStill(a: Snap, b: Snap, k: Key, i1: nat, i2: nat)
    requires Located(a, k, i1, i2) && b.s.hp == a.s.hp && Ready(b, i1) && Ready(b, i2)
    ensures Located(b, k, i1, i2)
  {
    hide Ready, Home, Other;
  }

  /**
   * Unless both buckets are full nothing is displaced, and the place found is the last free slot of the first bucket or, if
   * that one is full, of the second.
   */
  ghost predicate Direct(a: Snap, b: Snap, i1: nat, i2: nat, i: nat, j: nat) {
    && i1 < |a.s.cur| && i2 < |a.s.cur|
    && (!Full(a.s.cur[i1]) ==> b == a && i == i1 && LastFree(a.s.cur[i1], j))
    && (Full(a.s.cur[i1]) && !Full(a.s.cur[i2]) ==> b == a && i == i2 && LastFree(a.s.cur[i2], j))
  }

  lemma DirectIs(a: Snap, i1: nat, i2: nat, i: nat, j: nat)
    requires i1 < |a.s.cur| && i2 < |a.s.cur| && (i == i1 || (i == i2 && Full(a.s.cur[i1]))) && LastFree(a.s.cur[i], j)
    ensures Direct(a, a, i1, i2, i, j)
  {
  }

  lemma NotDirect(a: Snap, b: Snap, i1: nat, i2: nat, i: nat, j: nat)
    requires i1 < |a.s.cur| && i2 < |a.s.cur| && Full(a.s.cur[i1]) && Full(a.s.cur[i2])
    ensures Direct(a, b, i1, i2, i, j)
  {
  }

  lemma FreeIs(a: Snap, i: nat, j: nat)
    requires Ready(a, i) && i < |a.s.cur| && j < |a.s.cur[i]| && a.s.cur[i][j].Empty?
    ensures FreeAt(a, i, j)
  {
  }

  // The three ways an operation changes the map, at a slot of a ready bucket.

  function AddedSnap(a: Snap, i: nat, j: nat, k: Key, v: Value): Snap
    requires i < |a.s.cur| && j < |a.s.cur[i]| && LockInd(i) < |a.locks|
  {
    a.(s := a.s.(cur := Put(a.s.cur, i, j, Live(PartialOf(k), k, v))), locks := Count(a.locks, LockInd(i), 1),
       model := a.model[k := v])
  }

  function RemovedSnap(a: Snap, i: nat, j: nat): Snap
    requires LiveAt(a.s.cur, i, j) && LockInd(i) < |a.locks|
  {
    a.(s := a.s.(cur := Put(a.s.cur, i, j, Empty)), locks := Count(a.locks, LockInd(i), -1),
       model := a.model - {a.s.cur[i][j].key})
  }

  function AssignedSnap(a: Snap, i: nat, j: nat, v: Value): Snap
    requires LiveAt(a.s.cur, i, j)
  {
    a.(s := a.s.(cur := Put(a.s.cur, i, j, a.s.cur[i][j].(value := v))), model := a.model[a.s.cur[i][j].key := v])
  }

  /** b is a settled table in which only the map m differs from a. */
  ghost predicate Becomes(a: Snap, b: Snap, m: map<Key, Value>) {
    && b.Sound() && Kept(a.(model := m), b) && (a.Settled() ==> b.Settled()) && (a.s.AllMigrated() ==> b.s.AllMigrated())
    && |b.s.cur| == |a.s.cur| && b.s.migrated == a.s.migrated
  }

  lemma Becoming(a: Snap, cur: Table, locks: seq<Spinlock>, m: map<Key, Value>)
    requires a.Sound() && Good(a.s.(cur := cur), locks, m)
    ensures Becomes(a, a.(s := a.s.(cur := cur), locks := locks, model := m), m)
  {
    Rewritten(a, cur, locks, m);
    hide Good, Snap.Sound, Snap.Full, LockInd;
  }

  lemma FreeForFacts(a: Snap, i: nat, j: nat, k: Key)
    requires a.Sound() && FreeFor(a, i, j, k)
    ensures i < |a.s.cur| && j < |a.s.cur[i]| == SLOTS && a.s.cur[i][j].Empty? && IsCandidate(a.s.hp, k, i)
    ensures LockInd(i) < |a.locks| && LockInd(i) < |a.s.migrated| && a.s.migrated[LockInd(i)]
  {
    hide LockInd, Represents;
  }

  lemma AddedHolds(a: Snap, i: nat, j: nat, k: Key, v: Value)
    requires FreeFor(a, i, j, k) && LockInd(i) < |a.locks|
    ensures HoldsAt(AddedSnap(a, i, j, k, v), i, j, k)
  {
    hide LockInd, PartialOf, Count;
  }

  lemma AssignedHolds(a: Snap, i: nat, j: nat, k: Key, v: Value)
    requires HoldsAt(a, i, j, k)
    ensures HoldsAt(AssignedSnap(a, i, j, v), i, j, k)
  {
    hide LockInd;
  }

  lemma AddSnap(a: Snap, i: nat, j: nat, k: Key, v: Value)
    requires a.Sound() && FreeFor(a, i, j, k) && k !in a.model
    ensures i < |a.s.cur| && j < |a.s.cur[i]| == SLOTS && a.s.cur[i][j].Empty? && LockInd(i) < |a.locks|
    ensures Becomes(a, AddedSnap(a, i, j, k, v), a.model[k := v]) && HoldsAt(AddedSnap(a, i, j, k, v), i, j, k)
  {
    FreeForFacts(a, i, j, k);
    AddedHolds(a, i, j, k, v);
    GoodAdd(a.s, a.locks, a.model, i, j, k, v);
    hide Good, Represents, LockInd, PartialOf, Snap.Sound, Snap.Full, Split.Wf, Count, Becomes, HoldsAt, Put, FreeFor;
    Becoming(a, Put(a.s.cur, i, j, Live(PartialOf(k), k, v)), Count(a.locks, LockInd(i), 1), a.model[k := v]);
  }

  lemma RemoveSnap(a: Snap, i: nat, j: nat, k: Key)
    requires a.Sound() && HoldsAt(a, i, j, k)
    ensures LiveAt(a.s.cur, i, j) && LockInd(i) < |a.locks|
    ensures Becomes(a, RemovedSnap(a, i, j), a.model - {k})
  {
    assert LockInd(i) < |a.locks|;
    GoodRemove(a.s, a.locks, a.model, i, j);
    hide Good, Represents, LockInd, PartialOf, Snap.Sound, Snap.Full, Split.Wf, Count, Becomes, Put;
    Becoming(a, Put(a.s.cur, i, j, Empty), Count(a.locks, LockInd(i), -1), a.model - {k});
  }

  lemma AssignSnap(a: Snap, i: nat, j: nat, k: Key, v: Value)
    requires a.Sound() && HoldsAt(a, i, j, k)
    ensures LiveAt(a.s.cur, i, j)
    ensures Becomes(a, AssignedSnap(a, i, j, v), a.model[k := v]) && HoldsAt(AssignedSnap(a, i, j, v), i, j, k)
  {
    AssignedHolds(a, i, j, k, v);
    HoldsAtFacts(a, i, j, k);
    GoodSet(a.s, a.locks, a.model, i, j, v);
    hide Good, Represents, LockInd, PartialOf, Snap.Sound, Snap.Full, Split.Wf, Becomes, HoldsAt, Put;
    Becoming(a, Put(a.s.cur, i, j, a.s.cur[i][j].(value := v)), a.locks, a.model[k := v]);
  }

  lemma BecomesFacts(a: Snap, b: Snap, m: map<Key, Value>)
    requires Becomes(a, b, m)
    ensures b.Sound() && Kept(a.(model := m), b) && (a.Settled() ==> b.Settled()) && (a.s.AllMigrated() ==> b.s.AllMigrated())
    ensures b.model == m
  {
    hide Snap.Sound;
  }

  // Resizing.

  lemma FlagsStay(a: Snap, b: Snap)
    requires Migrated(a, b)
    ensures |b.s.migrated| == |a.s.migrated| && forall l | 0 <= l < |a.s.migrated| && a.s.migrated[l] :: b.s.migrated[l]
  {
    hide Snap.Full;
  }

  /** The count of stripes to migrate has no influence on the rest. */
  lemma CountStands(a: Snap, n: nat)
    requires a.Sound()
    ensures a.(remaining := n).Sound() && Migrated(a, a.(remaining := n))
  {
    hide Represents;
  }

  lemma AllFlags(s: Split)
    requires forall l | 0 <= l < |s.migrated| :: s.migrated[l]
    ensures s.AllMigrated()
  {
  }

  lemma Completed(a: Snap)
    requires a.Sound() && a.s.AllMigrated()
    ensures a.s.Wf() && a.Full() == a.s.cur && Shaped(a.s.cur, a.s.hp) && Placed(a.s.cur, a.s.hp)
    ensures Represents(a.s.cur, a.s.hp, a.model)
    ensures Unmigrated(a.s.migrated) == 0
  {
    GoodCurrent(a.s, a.locks, a.model);
    UnmigratedZero(a.s.migrated);
    hide Represents, Placed, Shaped, LockInd;
  }

  ghost function GrownSnap(a: Snap, n: nat, r: array<Spinlock>): Snap
    requires |a.locks| <= n
  {
    a.(s := a.s.(migrated := Flags(GrownLocks(a.locks, n))), locks := GrownLocks(a.locks, n), locksRef := r)
  }

  /** A bigger array of locks, all of them migrated, serves the same table. */
  lemma GrowSnap(a: Snap, n: nat, r: array<Spinlock>)
    requires a.Sound() && a.s.AllMigrated() && a.Settled() && |a.locks| <= n <= MaxLocks()
    ensures var b := GrownSnap(a, n, r);
            b.Sound() && b.Settled() && b.s.AllMigrated() && b.Full() == a.Full() && |b.locks| == n
  {
    GoodGrow(a.s, a.locks, a.model, n);
    GrownFlags(a.locks, n);
    UnmigratedZero(a.s.migrated);
    var b := GrownSnap(a, n, r);
    assert b.s.AllMigrated();
    UnmigratedZero(b.s.migrated);
    hide Represents, Placed, Shaped, LockInd;
  }

  /** b is a after the doubled table has been published; the doubling may be eager or lazy. */
  ghost predicate PublishedAs(a: Snap, b: Snap) {
    && a.s.Wf() && b.s == a.s.Published() && b.locks == PublishedLocks(a.s.hp, a.locks)
    && b.model == a.model && b.limits == a.limits
    && (HashSize(a.s.hp) >= MaxLocks() ==> b.pastRef != null && b.pastHp == a.s.hp)
    && b.remaining == if HashSize(a.s.hp) < MaxLocks() then 0 else |a.locks|
  }

  /** Publishing doubles the full table and keeps the map, the counters and the count of stripes to migrate right. */
  lemma PublishSnap(a: Snap, b: Snap)
    requires a.Sound() && a.s.AllMigrated() && |a.locks| >= Min(MaxLocks(), Pow2(a.s.hp + 1)) && PublishedAs(a, b)
    ensures b.Sound() && b.Settled() && b.s.hp == a.s.hp + 1
    ensures Shaped(a.Full(), a.s.hp) && b.Full() == Doubled(a.s.hp, a.Full())
  {
    GoodPublish(a.s, a.locks, a.model);
    PublishSettled(a, b);
    SoundFacts(a);
    hide Represents, Placed, Shaped, LockInd, Split.Effective, Flags, Doubled, Total;
  }

  /** Nothing has been moved to the current buckets yet. */
  ghost predicate Deferred(a: Snap) {
    a.s.cur == EmptyTable(a.s.hp) && a.remaining == |a.locks| && forall l | 0 <= l < |a.locks| :: !a.locks[l].isMigrated
  }

  /** A table with fewer buckets than there can be locks is moved at once; of a bigger one, nothing is moved. */
  lemma PublishedMoves(a: Snap, b: Snap)
    requires a.Sound() && a.s.AllMigrated() && PublishedAs(a, b)
    ensures if Pow2(a.s.hp) < MaxLocks() then b.s.AllMigrated() && b.s.past == [] else Deferred(b)
    ensures |b.locks| == |a.locks|
  {
    hide Represents, Placed, Shaped, LockInd, Split.Effective, Doubled, Total;
  }

  lemma PublishSettled(a: Snap, b: Snap)
    requires a.Sound() && a.s.AllMigrated() && PublishedAs(a, b)
    ensures b.Settled() && (!b.s.AllMigrated() ==> b.pastRef != null && b.pastHp + 1 == b.s.hp)
  {
    if HashSize(a.s.hp) < MaxLocks() {
      UnmigratedZero(b.s.migrated);
    } else {
      UnmigratedAll(b.s.migrated);
    }
    hide Represents, Placed, Shaped, LockInd, Split.Effective, Doubled, Total;
  }

  /** From a to b only the array of locks has been replaced. */
  ghost predicate OnlyLocks(a: Snap, b: Snap) {
    b == a.(s := a.s.(migrated := b.s.migrated), locks := b.locks, locksRef := b.locksRef)
  }

  lemma SameLocks(a: Snap)
    ensures OnlyLocks(a, a)
  {
  }

  lemma LocksBound(a: Snap)
    requires a.Sound()
    ensures Min(MaxLocks(), Pow2(a.s.hp)) <= |a.locks| <= MaxLocks() && |a.locks| == |a.s.migrated|
    ensures a.s.migrated == Flags(a.locks) && a.Full() == a.s.Effective()
  {
    hide Represents, LockInd;
  }

  lemma GrownIs(locks: seq<Spinlock>, old': seq<Spinlock>, n: nat)
    requires |old'| <= n == |locks|
    requires forall l | 0 <= l < n :: locks[l] == if l < |old'| then old'[l] else Spinlock(0, true)
    ensures locks == GrownLocks(old', n)
  {
  }

  predicate WithinLimit(limits: Limits, hp: nat) {
    limits.maximumHashpower.Some? ==> hp <= limits.maximumHashpower.value
  }

  /** The load factor is high enough for an automatic resize. */
  ghost predicate Loaded(a: Snap) {
    a.limits.minimumLoadFactor <= Load(|a.model|, a.s.hp)
  }

  lemma LimitIs(limits: Limits, hp: nat)
    ensures WithinLimit(limits, hp) <==> !(limits.maximumHashpower.Some? && limits.maximumHashpower.value < hp)
  {
  }

  lemma LoadedIs(a: Snap)
    ensures Loaded(a) <==> a.limits.minimumLoadFactor * (Pow2(a.s.hp) * SLOTS) as real <= |a.model| as real
  {
    hide Pow2, Load;
    LoadIsQuotient(|a.model|, a.s.hp);
    Compared(a.limits.minimumLoadFactor, |a.model| as real, (Pow2(a.s.hp) * SLOTS) as real);
  }

  lemma Compared(f: real, x: real, c: real)
    requires c > 0.0
    ensures f <= x / c <==> f * c <= x
  {
    var q := x / c;
    assert q * c == x;
    assert f <= q ==> (q - f) * c >= 0.0;
    assert f > q ==> (f - q) * c > 0.0;
  }

  /** b stands for the same map as a, in the buckets that those of a split into. */
  ghost predicate TwiceAsBig(a: Snap, b: Snap) {
    && b.model == a.model && b.limits == a.limits && b.s.hp == a.s.hp + 1
    && Shaped(a.Full(), a.s.hp) && b.Full() == Doubled(a.s.hp, a.Full())
  }

  lemma OnlyLocksFacts(a: Snap, b: Snap)
    requires OnlyLocks(a, b)
    ensures b.model == a.model && b.limits == a.limits && b.s.hp == a.s.hp && b.s.past == a.s.past
  {
  }

  lemma DoubledAtLast(a: Snap, b: Snap, c: Snap, d: Snap)
    requires b.Sound() && b.s.AllMigrated() && |b.locks| >= Min(MaxLocks(), Pow2(b.s.hp + 1)) && PublishedAs(b, c)
    requires Migrated(c, d)
    requires a.model == b.model && a.limits == b.limits && a.s.hp == b.s.hp && a.Full() == b.Full()
    ensures TwiceAsBig(a, d) && c.Sound() && c.Settled()
  {
    PublishSnap(b, c);
    MigratedFacts(c, d);
    hide Snap.Sound, Snap.Full, Snap.Settled, Doubled, Shaped, Migrated;
  }

  lemma TwiceBetween(a: Snap, b: Snap, c: Snap, d: Snap)
    requires Migrated(a, b) && TwiceAsBig(b, c) && Migrated(c, d)
    ensures TwiceAsBig(a, d)
  {
    MigratedFacts(a, b);
    MigratedFacts(c, d);
    hide Snap.Full, Doubled, Shaped, Migrated;
  }

  /** The key k is new to a table of hashpower hp that stands for m, and no slot can be freed for it within reach. */
  ghost predicate Cramped(hp: nat, m: map<Key, Value>, k: Key) {
    k !in m && exists t :: Represents(t, hp, m) && NothingFound(t, hp, Home(hp, k), Other(hp, k))
  }

  lemma CrampedIs(a: Snap, k: Key, i1: nat, i2: nat)
    requires a.Sound() && k !in a.model && i1 == Home(a.s.hp, k) && i2 == Other(a.s.hp, k)
    requires NothingFound(a.Full(), a.s.hp, i1, i2)
    ensures Cramped(a.s.hp, a.model, k)
  {
    hide Represents, NothingFound, Home, Other, Split.Wf, Split.Effective;
    assert Represents(a.Full(), a.s.hp, a.model);
  }

  /**
   * From a to b the table may have been displaced and, to find a place for key k, doubled automatically: it stands for the
   * same map, respects its limits, at half its size was filled to its minimum load factor at least, and at no smaller size
   * had a place for k.
   */
  ghost predicate Grown(a: Snap, b: Snap, k: Key) {
    && b.model == a.model && b.limits == a.limits && b.s.hp >= a.s.hp
    && (b.s.hp > a.s.hp ==>
          WithinLimit(a.limits, b.s.hp) && a.limits.minimumLoadFactor <= Load(|a.model|, b.s.hp - 1))
    && (forall h | a.s.hp <= h < b.s.hp :: Cramped(h, a.model, k))
  }

  lemma GrownRefl(a: Snap, k: Key)
    ensures Grown(a, a, k)
  {
  }

  lemma GrownSince(a: Snap, b: Snap, c: Snap, k: Key)
    requires b.model == a.model && b.limits == a.limits && b.s.hp == a.s.hp && Grown(b, c, k)
    ensures Grown(a, c, k)
  {
    hide Load, Cramped;
  }

  lemma KeptGrown(a: Snap, b: Snap, c: Snap, k: Key)
    requires Grown(a, b, k) && Kept(b, c)
    ensures Grown(a, c, k)
  {
    hide Load, Cramped;
  }

  lemma TwiceGrown(a: Snap, b: Snap, c: Snap, k: Key)
    requires Grown(a, b, k) && TwiceAsBig(b, c) && WithinLimit(b.limits, b.s.hp + 1) && Loaded(b) && Cramped(b.s.hp, b.model, k)
    ensures Grown(a, c, k)
  {
    hide Load, Snap.Full, Doubled, Cramped;
  }

  predicate Within(n: map<Key, Value>, m: map<Key, Value>) {
    forall k | k in n :: k in m && m[k] == n[k]
  }

  /** Some pair of m had no place in a table of hashpower hp. */
  ghost predicate Overfull(hp: nat, m: map<Key, Value>) {
    exists n, k :: Cramped(hp, n, k) && Within(n, m) && k in m
  }

  /** A table filled since hashpower least, now with the pairs of m, has never grown without need. */
  ghost predicate Forced(least: nat, hp: nat, m: map<Key, Value>) {
    hp >= least && forall h | least <= h < hp :: Overfull(h, m)
  }

  lemma ForcedStarts(hp: nat, m: map<Key, Value>)
    ensures Forced(hp, hp, m)
  {
  }

  lemma WithinInserted(m: map<Key, Value>, n: map<Key, Value>, k: Key, v: Value)
    requires n == if k in m then m else m[k := v]
    ensures Within(m, n) && k in n
  {
  }

  lemma ForcedBy(least: nat, a: Snap, b: Snap, m: map<Key, Value>, k: Key)
    requires Forced(least, a.s.hp, a.model) && Grown(a, b, k) && Within(a.model, m) && k in m
    ensures Forced(least, b.s.hp, m)
  {
    hide Load, Cramped, Within;
    forall h | least <= h < b.s.hp
      ensures Overfull(h, m)
    {
      if h < a.s.hp {
        OverfullStill(h, a.model, m);
      } else {
        assert Cramped(h, a.model, k);
      }
    }
  }

  lemma OverfullStill(hp: nat, m: map<Key, Value>, n: map<Key, Value>)
    requires Overfull(hp, m) && Within(m, n)
    ensures Overfull(hp, n)
  {
    hide Cramped;
    var o, k :| Cramped(hp, o, k) && Within(o, m) && k in m;
    assert Within(o, n);
  }

  /** A bound that automatic doubling does not go beyond: there, the limit or the load factor stops it. */
  ghost predicate Ceiling(a: Snap, bound: nat) {
    forall h: nat | h >= bound && WithinLimit(a.limits, h + 1) :: Load(|a.model|, h) < a.limits.minimumLoadFactor
  }

  /** There is such a bound as soon as a maximum is set or the minimum load factor is positive. */
  lemma CeilingExists(a: Snap) returns (bound: nat)
    requires a.limits.minimumLoadFactor > 0.0 || a.limits.maximumHashpower.Some?
    ensures Ceiling(a, bound)
  {
    if a.limits.maximumHashpower.Some? {
      bound := a.limits.maximumHashpower.value;
    } else {
      bound := LoadVanishes(|a.model|, a.limits.minimumLoadFactor);
      hide Load;
    }
  }

  lemma BelowCeiling(a: Snap, b: Snap, bound: nat)
    requires Ceiling(a, bound) && b.model == a.model && b.limits == a.limits
    requires WithinLimit(b.limits, b.s.hp + 1) && Loaded(b)
    ensures b.s.hp < bound
  {
    hide Load;
  }

  lemma GrownFacts(a: Snap, b: Snap, k: Key)
    requires Grown(a, b, k)
    ensures b.model == a.model && b.limits == a.limits && b.s.hp >= a.s.hp
  {
    hide Load, Cramped;
  }

  lemma TwiceFacts(a: Snap, b: Snap)
    requires TwiceAsBig(a, b)
    ensures b.model == a.model && b.limits == a.limits && b.s.hp == a.s.hp + 1
  {
    hide Doubled, Shaped;
  }

  lemma AreLocated(a: Snap, k: Key, i1: nat, i2: nat)
    requires i1 == Home(a.s.hp, k) && i2 == Other(a.s.hp, k) && Ready(a, i1) && Ready(a, i2)
    ensures Located(a, k, i1, i2)
  {
    hide Home, Other, Ready;
  }

  lemma LocatedFacts(a: Snap, k: Key, i1: nat, i2: nat)
    requires Located(a, k, i1, i2)
    ensures i1 == Home(a.s.hp, k) && i2 == Other(a.s.hp, k) && Ready(a, i1) && Ready(a, i2)
  {
    hide Home, Other;
  }

  /** A cleared table is a new one, whatever was left to migrate. */
  lemma ClearedSnap(a: Snap, b: Snap)
    requires Min(MaxLocks(), Pow2(b.s.hp)) <= |a.locks| <= MaxLocks() && |b.locks| == |a.locks|
    requires b.s.cur == EmptyTable(b.s.hp) && b.s.migrated == Flags(b.locks) && b.model == map[] && b.remaining == 0
    requires forall l | 0 <= l < |b.locks| :: b.locks[l] == Spinlock(0, true)
    ensures b.Sound() && b.Settled() && b.s.AllMigrated()
  {
    assert b.s.AllMigrated();
    UnmigratedZero(b.s.migrated);
    GoodInitially(b.s, b.locks);
    hide Represents, LockInd, EmptyTable;
  }

  /** Buckets that stand for the same map may take the place of the current ones, if there are enough locks. */
  lemma Replaced(a: Snap, b: Snap)
    requires a.Sound() && a.Settled() && a.s.AllMigrated() && b.locks == a.locks && b.model == a.model
    requires b.s.migrated == a.s.migrated && b.remaining == a.remaining
    requires Min(MaxLocks(), Pow2(b.s.hp)) <= |b.locks| && Represents(b.s.cur, b.s.hp, b.model)
    ensures b.Sound() && b.Settled() && b.s.AllMigrated()
  {
    LocksBound(a);
    LocksCover(b.s.hp, |b.locks|);
    assert b.s.AllMigrated();
    assert b.s.Wf() by {
      hide Placed, Unique, Holds, LockInd;
    }
    AllMigratedIsCurrent(b.s);
    TotalIsSize(a);
    hide LockInd;
    GoodFrom(b.s, b.locks, b.model);
  }

  lemma TotalIsSize(a: Snap)
    requires a.Sound()
    ensures Total(a.locks) == |a.model| && a.s.migrated == Flags(a.locks)
  {
    hide Represents, LockInd;
  }

  /** Every live slot holds a pair of m. */
  ghost predicate RowsOf(rows: Table, m: map<Key, Value>) {
    forall i, j | LiveAt(rows, i, j) :: rows[i][j].key in m && m[rows[i][j].key] == rows[i][j].value
  }

  /** n holds pairs of m only, and at least those of the slots before slot (i, j). */
  ghost predicate CopiedUpTo(rows: Table, m: map<Key, Value>, n: map<Key, Value>, i: nat, j: nat) {
    && (forall k | k in n :: k in m && n[k] == m[k])
    && (forall x, y | LiveAt(rows, x, y) && (x < i || (x == i && y < j)) :: rows[x][y].key in n)
  }

  lemma RepresentsRows(rows: Table, hp: nat, m: map<Key, Value>)
    requires Represents(rows, hp, m)
    ensures RowsOf(rows, m)
  {
  }

  lemma CopyStarts(rows: Table, m: map<Key, Value>, n: map<Key, Value>)
    requires n == map[]
    ensures CopiedUpTo(rows, m, n, 0, 0)
  {
  }

  lemma CopySlot(rows: Table, m: map<Key, Value>, n: map<Key, Value>, n': map<Key, Value>, i: nat, j: nat)
    requires RowsOf(rows, m) && CopiedUpTo(rows, m, n, i, j) && i < |rows| && j < |rows[i]|
    requires var s := rows[i][j];
             n' == if s.Live? && s.key !in n then n[s.key := s.value] else n
    ensures CopiedUpTo(rows, m, n', i, j + 1)
  {
    if rows[i][j].Live? {
      assert LiveAt(rows, i, j);
    }
  }

  lemma CopyBucketDone(rows: Table, m: map<Key, Value>, n: map<Key, Value>, i: nat)
    requires i < |rows| && CopiedUpTo(rows, m, n, i, |rows[i]|)
    ensures CopiedUpTo(rows, m, n, i + 1, 0)
  {
  }

  /** When all slots have been copied, the copy is the map. */
  lemma CopyDone(rows: Table, hp: nat, m: map<Key, Value>, n: map<Key, Value>)
    requires Represents(rows, hp, m) && CopiedUpTo(rows, m, n, |rows|, 0)
    ensures n == m
  {
    forall k | k in m
      ensures k in n
    {
      assert Stored(rows, k);
    }
  }

  lemma LimitsStand(a: Snap, l: Limits)
    requires a.Sound()
    ensures a.(limits := l).Sound() && (a.Settled() ==> a.(limits := l).Settled())
  {
    hide Represents;
  }

  /** b stands for the same map as a, at hashpower hp, or at more if some pair had no place in a smaller table. */
  ghost predicate Rebuilt(a: Snap, b: Snap, hp: nat) {
    b.model == a.model && b.limits == a.limits && Forced(hp, b.s.hp, b.model)
  }

  lemma RebuiltIs(a: Snap, b: Snap, hp: nat)
    requires b.model == a.model && b.limits == a.limits && Forced(hp, b.s.hp, b.model)
    ensures Rebuilt(a, b, hp)
  {
  }

  /**
   * What the flag returned by rehash and reserve, which asked for hashpower hp, says of a change of size: it is right unless
   * the table is asked to shrink; it is wrong, if the table has more pairs than a table of half its size has slots and
   * comes out no bigger than it was.
   */
  ghost predicate ResizeFlag(a: Snap, b: Snap, hp: nat, resized: bool) {
    && (hp >= a.s.hp ==> (resized <==> b.s.hp != a.s.hp))
    && (hp < a.s.hp && |a.model| > Capacity(a.s.hp - 1) ==> resized && b.s.hp >= a.s.hp)
    && (b.s.hp != a.s.hp ==> resized)
  }

  lemma SameSizeFlag(a: Snap, hp: nat)
    requires a.s.hp == hp
    ensures ResizeFlag(a, a, hp, false)
  {
    hide Capacity;
  }

  lemma RebuiltFlag(a: Snap, b: Snap, hp: nat)
    requires Rebuilt(a, b, hp) && b.Sound() && hp != a.s.hp
    ensures ResizeFlag(a, b, hp, true)
  {
    hide Represents, Capacity, LockInd, Overfull;
    SizeWithinCapacity(b.s.Effective(), b.s.hp, b.model);
    if b.s.hp < a.s.hp {
      CapacityIncreasing(b.s.hp, a.s.hp - 1);
    }
  }

  /** The table has room for n elements, and holds no more than it has room for. */
  predicate RoomFor(a: Snap, n: nat) {
    n <= Capacity(a.s.hp) && |a.model| <= Capacity(a.s.hp)
  }

  lemma HasRoom(a: Snap, n: nat, hp: nat)
    requires a.Sound() && hp <= a.s.hp && n <= Capacity(hp)
    ensures RoomFor(a, n)
  {
    SizeWithinCapacity(a.s.Effective(), a.s.hp, a.model);
    CapacityIncreasing(hp, a.s.hp);
    hide Represents, Capacity, LockInd;
  }

  lemma RebuiltFacts(a: Snap, b: Snap, hp: nat)
    requires Rebuilt(a, b, hp)
    ensures b.model == a.model && b.limits == a.limits && b.s.hp >= hp
  {
    hide Overfull;
  }

  /** With everything migrated, the live slots of the current buckets hold exactly the pairs of the map. */
  lemma CurrentHolds(a: Snap)
    requires a.Sound() && a.s.AllMigrated()
    ensures forall i, j | LiveAt(a.s.cur, i, j) ::
      a.s.cur[i][j].key in a.model && a.model[a.s.cur[i][j].key] == a.s.cur[i][j].value
    ensures forall k | k in a.model :: Stored(a.s.cur, k)
  {
    Completed(a);
    hide Placed, Unique, LockInd, Snap.Sound;
  }
}
