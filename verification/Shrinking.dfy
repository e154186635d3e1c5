/** A table that is asked to shrink and comes out at the size it had, although it is said to have been resized. */
module Shrinking {
  import opened Bits
  import opened Params
  import opened Hashing
  import opened Rows
  import opened PathCode
  import opened Paths
  import opened Frontier
  import opened Sizing
  import opened Counting
  import opened Snapshot

  lemma WithinSmaller(n: map<Key, Value>, m: map<Key, Value>, k: Key)
    requires Within(n, m) && k in m && k !in n
    ensures |n| + 1 <= |m|
  {
    KeysWithin(n.Keys + {k}, m.Keys);
    assert |n.Keys + {k}| == |n| + 1;
  }

  // Where a pair finds no place in a table of one bucket, or of two.

  lemma TwoBuckets(t: Table)
    requires |t| == 2
    ensures LiveCount(t) == LiveSlots(t[0]) + LiveSlots(t[1])
  {
    assert t[1..][0] == t[1] && t[1..][1..] == [];
    assert LiveCount(t[1..]) == LiveSlots(t[1]) + LiveCount([]);
  }

  lemma Sizes()
    ensures HashSize(0) == Pow2(0) == 1 && HashSize(1) == Pow2(1) == 2 && Capacity(0) == SLOTS && Capacity(1) == 2 * SLOTS
  {
  }

  /** A single bucket has no place exactly when it is full. */
  lemma CrampedAtZero(n: map<Key, Value>, m: map<Key, Value>, k: Key)
    requires Cramped(0, n, k) && Within(n, m) && k in m
    ensures |m| > SLOTS
  {
    hide Home, Other, Represents, NothingFound;
    Sizes();
    var t :| Represents(t, 0, n) && NothingFound(t, 0, Home(0, k), Other(0, k));
    NothingFoundFull(t, 0, Home(0, k), Other(0, k));
    SizeIsLiveCount(t, 0, n);
    OneBucket(t, n, Home(0, k));
    LiveSlotsFull(t[0]);
    WithinSmaller(n, m, k);
  }

  lemma OneBucket(t: Table, n: map<Key, Value>, i: nat)
    requires Represents(t, 0, n) && i < |t|
    ensures |t| == 1 && i == 0 && |t[0]| == SLOTS && LiveCount(t) == LiveSlots(t[0])
  {
    Sizes();
    assert t[1..] == [];
  }

  /** Both candidate buckets of a key are the same one. */
  predicate Bound(k: Key, f: nat) {
    Home(1, k) == f && Other(1, k) == f
  }

  /** In a table of two buckets that is not full, only a key bound to a bucket full of keys bound to it finds no place. */
  lemma StuckInOne(t: Table, n: map<Key, Value>, k: Key) returns (f: nat)
    requires Represents(t, 1, n) && |n| < 2 * SLOTS && NothingFound(t, 1, Home(1, k), Other(1, k))
    ensures f < |t| == 2 && Bound(k, f) && Full(t[f]) && |t[f]| == SLOTS && forall j | LiveAt(t, f, j) :: Bound(t[f][j].key, f)
  {
    hide Home, Other, AltIndex, PartialOf, NothingFound;
    Sizes();
    f := Home(1, k);
    NothingFoundFull(t, 1, f, Other(1, k));
    NoneBeyond(t, f, Other(1, k));
    SizeIsLiveCount(t, 1, n);
    TwoBuckets(t);
    LiveSlotsFull(t[f]);
    if Full(t[1 - f]) {
      LiveSlotsFull(t[1 - f]);
    }
    forall j | LiveAt(t, f, j)
      ensures Bound(t[f][j].key, f)
    {
      BoundHere(t, f, j);
    }
  }

  lemma NoneBeyond(t: Table, i1: nat, i2: nat)
    requires NothingFound(t, 1, i1, i2)
    ensures Shaped(t, 1) && i1 < |t| && NoneShorter(t, 1, i1, MAX_BFS_PATH_LEN)
  {
    hide NoneShorter;
  }

  /** A pair whose alternate bucket must be full, beside a bucket that is not, has no other bucket. */
  lemma BoundHere(t: Table, f: nat, j: nat)
    requires Shaped(t, 1) && Placed(t, 1) && f < |t| == 2 && LiveAt(t, f, j) && !Full(t[1 - f])
    requires NoneShorter(t, 1, f, MAX_BFS_PATH_LEN)
    ensures Bound(t[f][j].key, f)
  {
    hide Home, Other, AltIndex, PartialOf, Full;
    AltOfCandidate(1, t[f][j].key, f);
    AltFull(t, f, j);
  }

  lemma AltFull(t: Table, f: nat, j: nat)
    requires Shaped(t, 1) && f < |t| && LiveAt(t, f, j) && NoneShorter(t, 1, f, MAX_BFS_PATH_LEN)
    ensures var i := AltIndex(1, t[f][j].partial, f); i < |t| && Full(t[i])
  {
    hide AltIndex, Full;
    assert Follow(t, 1, f, []) == Some(f);
    assert [j][..0] == [];
    assert Follow(t, 1, f, [j]).Some?;
  }

  /** Keys that are bound to a bucket are all in it, so there are no more of them than slots. */
  lemma FewBound(t: Table, m: map<Key, Value>, f: nat, keys: set<Key>)
    requires Represents(t, 1, m) && f < 2 && forall k | k in keys :: k in m && Bound(k, f)
    ensures |keys| <= SLOTS
  {
    hide Home, Other, PartialOf;
    Sizes();
    forall k | k in keys
      ensures k in KeysOf(t[f])
    {
      assert Stored(t, k);
      var i, j :| LiveAt(t, i, j) && t[i][j].key == k;
      assert IsCandidate(1, k, i);
      InKeys(t[f], k);
    }
    KeysWithin(keys, KeysOf(t[f]));
    FewKeys(t[f]);
  }

  /** A bucket full of bound keys, and one more of them that is not in the table. */
  lemma ManyBound(t: Table, n: map<Key, Value>, k: Key, f: nat) returns (keys: set<Key>)
    requires Represents(t, 1, n) && f < |t| && Full(t[f]) && |t[f]| == SLOTS && k !in n && Bound(k, f)
    requires forall j | LiveAt(t, f, j) :: Bound(t[f][j].key, f)
    ensures |keys| == SLOTS + 1 && forall i | i in keys :: (i == k || i in n) && Bound(i, f)
  {
    hide Bound, Placed;
    keys := KeysOf(t[f]) + {k};
    forall i, j | 0 <= i < j < |t[f]|
      ensures t[f][i].key != t[f][j].key
    {
      assert LiveAt(t, f, i) && LiveAt(t, f, j);
    }
    AllKeys(t[f]);
    forall i | i in KeysOf(t[f])
      ensures i in n && Bound(i, f)
    {
      InKeys(t[f], i);
      var j :| 0 <= j < |t[f]| && t[f][j].Live? && t[f][j].key == i;
      assert LiveAt(t, f, j);
    }
  }

  /** A table of two buckets that was filled with pairs that fit into two buckets never lacks a place. */
  lemma NotCramped(a: Snap, n: map<Key, Value>, k: Key)
    requires a.Sound() && a.s.hp == 1 && Within(n, a.model) && k in a.model
    ensures !Cramped(1, n, k)
  {
    hide Represents, NothingFound, Snap.Sound, Bound, Home, Other, Full, Capacity;
    if Cramped(1, n, k) {
      var t :| Represents(t, 1, n) && NothingFound(t, 1, Home(1, k), Other(1, k));
      Sizes();
      SoundFacts(a);
      SizeWithinCapacity(a.Full(), 1, a.model);
      WithinSmaller(n, a.model, k);
      var f := StuckInOne(t, n, k);
      var keys := ManyBound(t, n, k, f);
      FewBound(a.Full(), a.model, f, keys);
    }
  }

  /**
   * A table of two buckets that is asked to shrink to one bucket is said to be resized. That is right exactly if it holds no
   * more pairs than one bucket has slots; otherwise it comes out with two buckets again.
   */
  lemma ShrinksInVain(a: Snap, b: Snap, resized: bool)
    requires a.Sound() && b.Sound() && a.s.hp == 1 && Rebuilt(a, b, 0) && ResizeFlag(a, b, 0, resized)
    ensures resized && b.s.hp == if |a.model| > SLOTS then a.s.hp else 0
  {
    hide Snap.Sound, Cramped, Within, Capacity;
    Sizes();
    SoundFacts(b);
    SizeWithinCapacity(b.Full(), b.s.hp, b.model);
    if b.s.hp > 1 {
      assert Overfull(1, b.model);
      var n, k :| Cramped(1, n, k) && Within(n, b.model) && k in b.model;
      NotCramped(a, n, k);
    }
    if b.s.hp > 0 {
      assert Overfull(0, b.model);
      var n, k :| Cramped(0, n, k) && Within(n, b.model) && k in b.model;
      CrampedAtZero(n, b.model, k);
    }
  }

  // Tables on which the flag is wrong.

  /** A table of two buckets: the first is full, and one more pair is in the second. */
  function Crowded(keys: seq<Key>, last: Key, x: Value): Table
    requires |keys| == SLOTS
  {
    [seq(SLOTS, j requires 0 <= j < SLOTS => Live(PartialOf(keys[j]), keys[j], x)),
     [Live(PartialOf(last), last, x)] + seq(SLOTS - 1, _ => Empty)]
  }

  function CrowdedMap(keys: seq<Key>, last: Key, x: Value): map<Key, Value> {
    map k | k in keys + [last] :: x
  }

  lemma CrowdedSlots(keys: seq<Key>, last: Key, x: Value)
    requires |keys| == SLOTS
    ensures var t := Crowded(keys, last, x);
            && |t| == 2 && |t[0]| == |t[1]| == SLOTS
            && forall i, j | LiveAt(t, i, j) ::
                 if i == 0 then t[i][j] == Live(PartialOf(keys[j]), keys[j], x)
                 else i == 1 && j == 0 && t[i][j] == Live(PartialOf(last), last, x)
  {
    hide PartialOf;
  }

  /** There are such tables, whenever the hash function spreads the keys over both buckets. */
  lemma CrowdedExists(keys: seq<Key>, last: Key, x: Value)
    requires |keys| == SLOTS && (forall i, j | 0 <= i < j < |keys| :: keys[i] != keys[j]) && last !in keys
    requires (forall k | k in keys :: IsCandidate(1, k, 0)) && IsCandidate(1, last, 1)
    ensures Represents(Crowded(keys, last, x), 1, CrowdedMap(keys, last, x))
    ensures |CrowdedMap(keys, last, x)| == SLOTS + 1
  {
    hide Home, Other, PartialOf;
    Sizes();
    var t, m := Crowded(keys, last, x), CrowdedMap(keys, last, x);
    CrowdedSlots(keys, last, x);
    assert Placed(t, 1) && Unique(t) by {
      hide IsCandidate;
    }
    forall k | k in m
      ensures Stored(t, k)
    {
      if k == last {
        assert LiveAt(t, 1, 0) && t[1][0].key == k;
      } else {
        var j :| 0 <= j < |keys| && keys[j] == k;
        assert LiveAt(t, 0, j) && t[0][j].key == k;
      }
    }
    SizeIsLiveCount(t, 1, m);
    TwoBuckets(t);
    LiveSlotsFull(t[0]);
    NoneLiveSlots(t[1][1..]);
  }
}
