/** The size of a table: how many slots are live, and that this is the size of the map it stands for. */
module Counting {
  import opened Bits
  import opened Params
  import opened Rows
  import opened Paths
  import opened Sizing

  function LiveSlots(b: Bucket): nat {
    if b == [] then 0 else (if b[0].Live? then 1 else 0) + LiveSlots(b[1..])
  }

  function LiveCount(t: Table): nat {
    if t == [] then 0 else LiveSlots(t[0]) + LiveCount(t[1..])
  }

  lemma {:induction false} LiveSlotsBound(b: Bucket)
    ensures LiveSlots(b) <= |b|
  {
    if b != [] {
      LiveSlotsBound(b[1..]);
    }
  }

  lemma {:induction false} LiveCountBound(t: Table)
    requires forall i | 0 <= i < |t| :: |t[i]| == SLOTS
    ensures LiveCount(t) <= |t| * SLOTS
  {
    if t != [] {
      LiveSlotsBound(t[0]);
      LiveCountBound(t[1..]);
      assert |t| * SLOTS == (|t| - 1) * SLOTS + SLOTS;
    }
  }

  lemma {:induction false} LiveSlotsErase(b: Bucket, j: nat)
    requires j < |b| && b[j].Live?
    ensures LiveSlots(b[j := Empty]) == LiveSlots(b) - 1
  {
    if j == 0 {
      assert b[j := Empty][1..] == b[1..];
    } else {
      LiveSlotsErase(b[1..], j - 1);
      assert b[j := Empty][1..] == b[1..][j - 1 := Empty];
    }
  }

  lemma {:induction false} LiveCountErase(t: Table, i: nat, j: nat)
    requires LiveAt(t, i, j)
    ensures LiveCount(Put(t, i, j, Empty)) == LiveCount(t) - 1
  {
    if i == 0 {
      LiveSlotsErase(t[0], j);
      assert Put(t, i, j, Empty)[1..] == t[1..];
    } else {
      assert LiveAt(t[1..], i - 1, j);
      LiveCountErase(t[1..], i - 1, j);
      assert Put(t, i, j, Empty)[1..] == Put(t[1..], i - 1, j, Empty);
    }
  }

  lemma {:induction false} NoneLiveSlots(b: Bucket)
    requires forall j | 0 <= j < |b| :: b[j].Empty?
    ensures LiveSlots(b) == 0
  {
    if b != [] {
      NoneLiveSlots(b[1..]);
    }
  }

  lemma {:induction false} NoneLive(t: Table)
    requires forall i, j :: !LiveAt(t, i, j)
    ensures LiveCount(t) == 0
  {
    if t != [] {
      forall j | 0 <= j < |t[0]|
        ensures t[0][j].Empty?
      {
        assert !LiveAt(t, 0, j);
      }
      NoneLiveSlots(t[0]);
      forall i, j
        ensures !LiveAt(t[1..], i, j)
      {
        assert !LiveAt(t, i + 1, j);
      }
      NoneLive(t[1..]);
    }
  }

  /** The map has as many keys as the table has live slots. */
  lemma {:induction false} SizeIsLiveCount(t: Table, hp: nat, m: map<Key, Value>)
    requires Represents(t, hp, m)
    ensures |m| == LiveCount(t)
    decreases |m|
  {
    if m == map[] {
      forall i, j
        ensures !LiveAt(t, i, j)
      {
      }
      NoneLive(t);
    } else {
      var k :| k in m;
      assert Stored(t, k);
      var i, j :| LiveAt(t, i, j) && t[i][j].key == k;
      RemovePair(t, hp, m, i, j);
      assert |m - {k}| == |m| - 1 by {
        assert (m - {k}).Keys == m.Keys - {k};
      }
      SizeIsLiveCount(Put(t, i, j, Empty), hp, m - {k});
      LiveCountErase(t, i, j);
    }
  }

  /** No table holds more than its capacity. */
  lemma SizeWithinCapacity(t: Table, hp: nat, m: map<Key, Value>)
    requires Represents(t, hp, m)
    ensures |m| <= Capacity(hp)
  {
    SizeIsLiveCount(t, hp, m);
    LiveCountBound(t);
  }

  lemma {:induction false} LiveSlotsFull(b: Bucket)
    ensures LiveSlots(b) == |b| <==> Full(b)
  {
    if b != [] {
      LiveSlotsBound(b[1..]);
      LiveSlotsFull(b[1..]);
      assert forall j | 0 < j < |b| :: b[j] == b[1..][j - 1];
    }
  }

  lemma {:induction false} LiveCountFull(t: Table)
    requires forall i | 0 <= i < |t| :: |t[i]| == SLOTS
    ensures LiveCount(t) == |t| * SLOTS <==> forall i | 0 <= i < |t| :: Full(t[i])
  {
    hide Full;
    if t != [] {
      LiveSlotsBound(t[0]);
      LiveSlotsFull(t[0]);
      LiveCountBound(t[1..]);
      LiveCountFull(t[1..]);
      assert |t| * SLOTS == (|t| - 1) * SLOTS + SLOTS;
      assert forall i | 0 < i < |t| :: t[i] == t[1..][i - 1];
    }
  }

  /** The load factor of a table is the part of its slots that are live: at most 1, and 1 exactly if all of them are. */
  lemma LoadOfTable(t: Table, hp: nat, m: map<Key, Value>)
    requires Represents(t, hp, m)
    ensures Load(|m|, hp) * (|t| * SLOTS) as real == LiveCount(t) as real
    ensures 0.0 <= Load(|m|, hp) <= 1.0
    ensures Load(|m|, hp) == 1.0 <==> forall i | 0 <= i < |t| :: Full(t[i])
  {
    hide Full, LiveCount, Represents, Load, Pow2;
    SizeIsLiveCount(t, hp, m);
    TableShape(t, hp, m);
    LiveCountBound(t);
    LiveCountFull(t);
    LoadIsShare(|m|, hp, Load(|m|, hp));
    LoadIsQuotient(|m|, hp);
    Share(|m| as real, (|t| * SLOTS) as real);
  }

  lemma TableShape(t: Table, hp: nat, m: map<Key, Value>)
    requires Represents(t, hp, m)
    ensures |t| == Pow2(hp) && forall i | 0 <= i < |t| :: |t[i]| == SLOTS
  {
  }

  lemma Share(x: real, c: real)
    requires 0.0 <= x <= c && c > 0.0
    ensures 0.0 <= x / c <= 1.0 && (x / c == 1.0 <==> x == c)
  {
    assert x / c * c == x;
  }

  // The keys of one bucket.

  function KeysOf(b: Bucket): set<Key> {
    if b == [] then {} else KeysOf(b[1..]) + (if b[0].Live? then {b[0].key} else {})
  }

  lemma {:induction false} InKeys(b: Bucket, k: Key)
    ensures k in KeysOf(b) <==> exists j :: 0 <= j < |b| && b[j].Live? && b[j].key == k
  {
    if b != [] {
      InKeys(b[1..], k);
      assert forall j | 0 < j < |b| :: b[j] == b[1..][j - 1];
      if k in KeysOf(b[1..]) {
        var j :| 0 <= j < |b[1..]| && b[1..][j].Live? && b[1..][j].key == k;
        assert b[j + 1].Live? && b[j + 1].key == k;
      }
    }
  }

  lemma {:induction false} FewKeys(b: Bucket)
    ensures |KeysOf(b)| <= |b|
  {
    if b != [] {
      FewKeys(b[1..]);
    }
  }

  /** A full bucket has as many keys as slots, if none is there twice. */
  lemma {:induction false} AllKeys(b: Bucket)
    requires Full(b) && forall i, j | 0 <= i < j < |b| :: b[i].key != b[j].key
    ensures |KeysOf(b)| == |b|
  {
    if b != [] {
      assert Full(b[1..]);
      assert forall i, j | 0 <= i < j < |b| - 1 :: b[1..][i].key != b[1..][j].key;
      AllKeys(b[1..]);
      InKeys(b[1..], b[0].key);
    }
  }

  lemma KeysWithin(a: set<Key>, b: set<Key>)
    requires a <= b
    ensures |a| <= |b|
  {
    assert b == a + (b - a);
  }

  /** A bucket with as many keys as slots is full. */
  lemma {:induction false} KeysFill(b: Bucket)
    requires |KeysOf(b)| == |b|
    ensures Full(b)
  {
    if b != [] {
      FewKeys(b[1..]);
      KeysFill(b[1..]);
      assert forall j | 0 < j < |b| :: b[j] == b[1..][j - 1];
    }
  }
}
