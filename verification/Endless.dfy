/** Why insertion needs a limit: with too many keys of one hash there is no table that has a place for one more. */
module Endless {
  import opened Params
  import opened Hashing
  import opened Rows
  import opened PathCode
  import opened Paths
  import opened Frontier
  import opened Counting
  import opened Snapshot

  /** As many keys of the hash of k as two buckets have slots. */
  ghost predicate Crowd(keys: set<Key>, k: Key) {
    |keys| == 2 * SLOTS && forall i | i in keys :: Hash(i) == Hash(k)
  }

  /** Keys of equal hash have the same two candidate buckets at every hashpower. */
  lemma SameCandidates(hp: nat, i: Key, k: Key)
    requires Hash(i) == Hash(k)
    ensures Home(hp, i) == Home(hp, k) && Other(hp, i) == Other(hp, k) && PartialOf(i) == PartialOf(k)
  {
  }

  /** The crowd fills both buckets, and there is nobody else in them. */
  lemma CrowdFills(t: Table, hp: nat, m: map<Key, Value>, keys: set<Key>, k: Key)
    requires Represents(t, hp, m) && Crowd(keys, k) && forall i | i in keys :: i in m
    ensures Home(hp, k) < |t| && Other(hp, k) < |t| && Full(t[Home(hp, k)]) && Full(t[Other(hp, k)])
    ensures forall x, j | (x == Home(hp, k) || x == Other(hp, k)) && LiveAt(t, x, j) :: Hash(t[x][j].key) == Hash(k)
  {
    hide Home, Other, PartialOf;
    CandidateBound(t, hp, k);
    var a, b := KeysOf(t[Home(hp, k)]), KeysOf(t[Other(hp, k)]);
    forall i | i in keys
      ensures i in a + b
    {
      SameCandidates(hp, i, k);
      assert Stored(t, i);
      var x, j :| LiveAt(t, x, j) && t[x][j].key == i;
      assert IsCandidate(hp, i, x);
      InKeys(t[x], i);
    }
    FewKeys(t[Home(hp, k)]);
    FewKeys(t[Other(hp, k)]);
    JustFits(keys, a, b);
    KeysFill(t[Home(hp, k)]);
    KeysFill(t[Other(hp, k)]);
    forall x, j | (x == Home(hp, k) || x == Other(hp, k)) && LiveAt(t, x, j)
      ensures Hash(t[x][j].key) == Hash(k)
    {
      InKeys(t[x], t[x][j].key);
    }
  }

  /** A set as big as its two parts can be together is made up of them. */
  lemma JustFits(keys: set<Key>, a: set<Key>, b: set<Key>)
    requires keys <= a + b && |keys| == 2 * SLOTS && |a| <= SLOTS && |b| <= SLOTS
    ensures |a| == |b| == SLOTS && a + b == keys
  {
    assert a + b == a + (b - a) && b == (b - a) + (b * a);
    assert a + b == keys + (a + b - keys);
  }

  /** Displacing the crowd leads nowhere else. */
  lemma {:induction false} CrowdStays(t: Table, hp: nat, k: Key, b: nat, slots: seq<nat>)
    requires Shaped(t, hp) && Placed(t, hp) && b < |t| && (b == Home(hp, k) || b == Other(hp, k))
    requires forall x, j | (x == Home(hp, k) || x == Other(hp, k)) && LiveAt(t, x, j) :: Hash(t[x][j].key) == Hash(k)
    requires Follow(t, hp, b, slots).Some?
    ensures Follow(t, hp, b, slots).value == Home(hp, k) || Follow(t, hp, b, slots).value == Other(hp, k)
    decreases |slots|
  {
    hide Home, Other, PartialOf, AltIndex;
    if slots != [] {
      var n := |slots| - 1;
      CrowdStays(t, hp, k, b, slots[..n]);
      var e := Follow(t, hp, b, slots[..n]).value;
      assert LiveAt(t, e, slots[n]);
      SameCandidates(hp, t[e][slots[n]].key, k);
      AltOfCandidate(hp, t[e][slots[n]].key, e);
    }
  }

  /**
   * With a crowd of its hash in the map, a new key is stuck at every hashpower: if neither a maximum hashpower nor the load
   * factor stopped the doubling, it would go on for ever.
   */
  lemma NeverPlaced(t: Table, hp: nat, m: map<Key, Value>, keys: set<Key>, k: Key)
    requires Represents(t, hp, m) && Crowd(keys, k) && (forall i | i in keys :: i in m) && k !in m
    ensures Cramped(hp, m, k)
  {
    CrowdFills(t, hp, m, keys, k);
    forall b, slots | (b == Home(hp, k) || b == Other(hp, k)) && |slots| < MAX_BFS_PATH_LEN && Follow(t, hp, b, slots).Some?
      ensures Full(t[Follow(t, hp, b, slots).value])
    {
      CrowdStays(t, hp, k, b, slots);
    }
    hide Home, Other, Follow, Full, Represents;
    assert NothingFound(t, hp, Home(hp, k), Other(hp, k));
  }
}
