/** A table of which one thread holds all locks: iteration, insertion, erasure and comparison. */
module LockedTables {
  import opened Params
  import opened Hashing
  import opened Rows
  import opened Lazy
  import opened Snapshot
  import opened Container
  import opened CuckooMap
  import opened Traversal

  /** All live positions before p hold pairs of m. */
  ghost predicate AgreesUpTo(t: Table, m: map<Key, Value>, p: Place) {
    forall r: Place | IsLive(t, r) && Before(r, p) :: t[r.0][r.1].key in m && m[t[r.0][r.1].key] == t[r.0][r.1].value
  }

  lemma AgreesNext(t: Table, m: map<Key, Value>, p: Place, q: Place)
    requires AgreesUpTo(t, m, p) && IsLive(t, p) && Next(t, p, q)
    requires t[p.0][p.1].key in m && m[t[p.0][p.1].key] == t[p.0][p.1].value
    ensures AgreesUpTo(t, m, q)
  {
    forall r: Place | IsLive(t, r) && Before(r, q)
      ensures t[r.0][r.1].key in m && m[t[r.0][r.1].key] == t[r.0][r.1].value
    {
      assert Before(r, (p.0, p.1 + 1));
      assert r == p || Before(r, p);
    }
  }

  /** A map that is contained in another one of the same size is that map. */
  lemma {:induction false} SameSizeSubmap(m: map<Key, Value>, n: map<Key, Value>)
    requires |m| == |n| && forall k | k in n :: k in m && m[k] == n[k]
    ensures m == n
    decreases |n|
  {
    if n == map[] {
      assert m == map[];
    } else {
      var k :| k in n;
      assert |m - {k}| == |m| - 1 by { assert (m - {k}).Keys == m.Keys - {k}; }
      assert |n - {k}| == |n| - 1 by { assert (n - {k}).Keys == n.Keys - {k}; }
      SameSizeSubmap(m - {k}, n - {k});
      assert m == (m - {k})[k := m[k]] && n == (n - {k})[k := n[k]];
    }
  }

  lemma AgreesFirst(t: Table, m: map<Key, Value>, q: Place)
    requires FirstFrom(t, (0, 0), q)
    ensures AgreesUpTo(t, m, q)
  {
  }

  lemma Disagrees(t: Table, m: map<Key, Value>, p: Place)
    requires IsLive(t, p) && !(t[p.0][p.1].key in m && m[t[p.0][p.1].key] == t[p.0][p.1].value)
    ensures !AgreesUpTo(t, m, EndOf(t))
  {
    assert Before(p, EndOf(t));
  }

  /** One-sided containment decides equality when the sizes agree. */
  lemma SameContents(t: Table, m: map<Key, Value>, n: map<Key, Value>)
    requires |m| == |n| && forall k | k in n :: Stored(t, k)
    requires forall i, j | LiveAt(t, i, j) :: t[i][j].key in n && n[t[i][j].key] == t[i][j].value
    ensures AgreesUpTo(t, m, EndOf(t)) <==> m == n
  {
    if AgreesUpTo(t, m, EndOf(t)) {
      AgreesAll(t, m, n);
      SameSizeSubmap(m, n);
    }
  }

  lemma AgreesAll(t: Table, m: map<Key, Value>, n: map<Key, Value>)
    requires AgreesUpTo(t, m, EndOf(t))
    requires forall i, j | LiveAt(t, i, j) :: t[i][j].key in n && n[t[i][j].key] == t[i][j].value
    requires forall k | k in n :: Stored(t, k)
    ensures forall k | k in n :: k in m && m[k] == n[k]
  {
    forall k | k in n
      ensures k in m && m[k] == n[k]
    {
      var i, j :| LiveAt(t, i, j) && t[i][j].key == k;
      assert IsLive(t, (i, j));
    }
  }

  lemma LiveIs(t: Table, it: Iterator)
    requires IsLive(t, it.At())
    ensures it.At() == (it.index, it.slot) && LiveAt(t, it.index, it.slot) && it.index < |t| && it.slot < |t[it.index]|
    ensures PairAt(t, it.At()) == (t[it.index][it.slot].key, t[it.index][it.slot].value)
  {
  }

  class LockedTable {
    const map_: CuckooHashMap

    ghost predicate Valid()
      reads map_, map_.buckets, map_.oldBuckets, map_.locks, map_.buckets.buckets, map_.oldBuckets.buckets
    {
      map_.Open(Mode.LockedTable)
    }

    /** Takes all locks of a map and completes its migration. */
    constructor (m: CuckooHashMap)
      requires m.Valid()
      modifies m.Heap()
      ensures map_ == m && Valid() && m.Since(Mode.LockedTable, old(m.Now()), old(m.Heap()))
    {
      map_ := m;
      new;
      m.ValidIsSound();
      m.RehashWithWorkers();
      m.SinceFacts(Mode.LockedTable, old(m.Now()), old(m.Heap()));
    }

    lemma Facts()
      requires Valid()
      ensures map_.buckets.Valid() && map_.buckets.buckets != null && map_.buckets.Rows() == map_.Now().s.cur
      ensures map_.Now().Sound() && map_.Now().s.AllMigrated() && map_.Sound() && map_.Now().model == map_.model
      ensures |map_.buckets.Rows()| == HashSize(map_.Now().s.hp) >= 1 && map_.Open(Mode.LockedTable)
    {
      map_.OpenFacts(Mode.LockedTable);
      map_.OpenIs(Mode.LockedTable);
      map_.CurrentBuckets();
      map_.ModelNow();
      SoundFacts(map_.Now());
      hide Snap.Sound, Snap.Full, Split.AllMigrated, Represents;
    }

    method Begin() returns (it: Iterator)
      requires Valid()
      ensures fresh(it) && it.buckets == map_.buckets && it.Valid()
      ensures FirstFrom(map_.buckets.Rows(), (0, 0), it.At())
    {
      Facts();
      hide Valid;
      it := new Iterator(map_.buckets, 0, 0);
    }

    method End() returns (it: Iterator)
      requires Valid()
      ensures fresh(it) && it.buckets == map_.buckets && it.Valid() && it.At() == EndOf(map_.buckets.Rows())
    {
      Facts();
      hide Valid;
      it := new Iterator(map_.buckets, map_.buckets.Size(), 0);
    }

    /** Going through the table from begin to end, as a loop over it does: every live slot is visited exactly once. */
    method Elements() returns (s: seq<(Key, Value)>, ghost places: seq<Place>)
      requires Valid()
      ensures Visited(map_.buckets.Rows(), places, EndOf(map_.buckets.Rows()))
      ensures Pairs(map_.buckets.Rows(), places, s)
      ensures forall x, y | 0 <= x < y < |s| :: s[x].0 != s[y].0
      ensures forall k, v :: (k, v) in s <==> k in map_.model && map_.model[k] == v
    {
      Facts();
      hide Valid;
      Completed(map_.Now());
      s, places := Collect(map_.buckets);
      CollectedIsMap(map_.buckets.Rows(), map_.Now().s.hp, map_.model, places, s);
    }

    /** An iterator at the key, or the end. */
    method Find(k: Key) returns (it: Iterator)
      requires Valid()
      ensures fresh(it) && it.buckets == map_.buckets && it.Valid()
      ensures if k in map_.model then IsLive(it.buckets.Rows(), it.At()) && PairAt(it.buckets.Rows(), it.At()) == (k, map_.model[k])
              else it.At() == EndOf(it.buckets.Rows())
    {
      hide *;
      Facts();
      var pos := map_.FindInLocked(k);
      if pos.status == Ok {
        HoldsAtFacts(map_.Now(), pos.index, pos.slot, k);
        RowsWide();
        it := IteratorAt(pos.index, pos.slot);
      } else {
        it := End();
      }
    }

    method IteratorAt(i: nat, j: nat) returns (it: Iterator)
      requires Valid() && i < |map_.buckets.Rows()| && j < |map_.buckets.Rows()[i]| && map_.buckets.Rows()[i][j].Live?
      ensures fresh(it) && it.buckets == map_.buckets && it.Valid() && it.At() == (i, j)
      ensures IsLive(it.buckets.Rows(), (i, j)) && it.buckets.Rows() == old(map_.buckets.Rows())
      ensures PairAt(it.buckets.Rows(), (i, j)) == old((map_.buckets.Rows()[i][j].key, map_.buckets.Rows()[i][j].value))
    {
      hide Valid;
      Facts();
      RowsWide();
      it := new Iterator(map_.buckets, i, j);
      FirstFromLive(map_.buckets.Rows(), (i, j), it.At());
    }

    lemma RowsWide()
      requires Valid()
      ensures forall i | 0 <= i < |map_.buckets.Rows()| :: |map_.buckets.Rows()[i]| == SLOTS
    {
      Facts();
    }

    /** Inserts a pair if its key is new; the iterator is at the key either way. */
    method Insert(k: Key, v: Value) returns (it: Iterator, inserted: bool, st: Status)
      requires Valid() && (map_.minimumLoadFactor > 0.0 || map_.maximumHashpower.Some?)
      modifies map_.Heap()
      ensures Valid() && map_.Renewed() && (st == Ok || st.Threw?) && fresh(it)
      ensures st.Threw? ==> map_.model == old(map_.model)
      ensures st == Ok ==>
                && inserted == (k !in old(map_.model))
                && map_.model == (if inserted then old(map_.model)[k := v] else old(map_.model))
                && it.buckets == map_.buckets && it.Valid() && IsLive(it.buckets.Rows(), it.At())
                && PairAt(it.buckets.Rows(), it.At()) == (k, map_.model[k])
    {
      hide *;
      Facts();
      var pos := map_.Place(Mode.LockedTable, k, v);
      NowValid();
      Facts();
      inserted, st := pos.status == Ok, Ok;
      map_.RenewedFacts();
      ghost var g := map_.Heap();
      if pos.status.Threw? {
        it := End();
        st := pos.status;
      } else {
        HoldsAtFacts(map_.Now(), pos.index, pos.slot, k);
        RowsWide();
        it := IteratorAt(pos.index, pos.slot);
      }
      NowValid();
      map_.RenewedStill(g);
    }

    lemma NowValid()
      ensures Valid() <==> map_.Open(Mode.LockedTable)
    {
    }

    lemma LiveIsHeld(i: nat, j: nat)
      requires Valid() && LiveAt(map_.buckets.Rows(), i, j)
      ensures j < SLOTS && HoldsAt(map_.Now(), i, j, map_.buckets.Rows()[i][j].key)
    {
      Facts();
      RowsWide();
      CurrentHolds(map_.Now());
      SoundFacts(map_.Now());
      hide Valid, Snap.Sound, Snap.Full, Split.AllMigrated, Represents, Ready;
    }

    method IteratorFrom(i: nat, j: nat) returns (it: Iterator)
      requires Valid() && i < |map_.buckets.Rows()| && j < SLOTS
      ensures fresh(it) && it.buckets == map_.buckets && it.Valid() && FirstFrom(map_.buckets.Rows(), (i, j), it.At())
    {
      hide Valid;
      Facts();
      it := new Iterator(map_.buckets, i, j);
    }

    /** Erases the pair an iterator is at, and returns an iterator at the next one. */
    method EraseAt(it: Iterator) returns (next: Iterator)
      requires Valid() && it.buckets == map_.buckets && IsLive(map_.buckets.Rows(), it.At())
      modifies map_.Heap()
      ensures Valid() && fresh(next) && next.buckets == map_.buckets && next.Valid()
      ensures map_.model == old(map_.model) - {old(PairAt(map_.buckets.Rows(), it.At())).0}
      ensures FirstFrom(map_.buckets.Rows(), old(it.At()), next.At())
    {
      hide *;
      Facts();
      var i, j := it.index, it.slot;
      LiveIs(map_.buckets.Rows(), it);
      LiveIsHeld(i, j);
      map_.Mine();
      ghost var k := map_.buckets.Rows()[i][j].key;
      ghost var a, h := map_.Now(), map_.Heap();
      map_.DelFromBucket(Mode.LockedTable, i, j, k);
      map_.AfterFacts(Mode.LockedTable, a.(model := a.model - {k}), h);
      NowValid();
      Facts();
      next := IteratorFrom(i, j);
    }

    /** Whether the pair (k, v) is found. */
    method Contains(k: Key, v: Value) returns (found: bool)
      requires Valid()
      ensures found <==> k in map_.model && map_.model[k] == v
    {
      hide *;
      Facts();
      var pos := map_.FindInLocked(k);
      found := false;
      if pos.status == Ok {
        var w := map_.ReadAt(Mode.LockedTable, pos.index, pos.slot, k);
        found := w.value == v;
      }
    }

    /** Whether every pair stored in some buckets is found in this table; stops at the first that is not. */
    method FindsAll(b: BucketContainer) returns (all: bool)
      requires Valid() && b.Valid() && b.buckets != null && |b.Rows()| >= 1
      ensures all <==> AgreesUpTo(b.Rows(), map_.model, EndOf(b.Rows()))
    {
      hide Valid, AgreesUpTo;
      ghost var t := b.Rows();
      var it := new Iterator(b, 0, 0);
      AgreesFirst(t, map_.model, it.At());
      while (it.index, it.slot) != (b.Size(), 0)
        invariant fresh(it) && it.buckets == b && it.Valid() && b.Rows() == t
        invariant Valid() && (it.At() == EndOf(t) || IsLive(t, it.At()))
        invariant AgreesUpTo(t, map_.model, it.At())
        decreases |t| - it.index, SLOTS - it.slot
      {
        ghost var p := it.At();
        var e := b.buckets[it.index][it.slot];
        var found := Contains(e.key, e.value);
        if !found {
          Disagrees(t, map_.model, p);
          return false;
        }
        it.Increment();
        AgreesNext(t, map_.model, p, it.At());
      }
      all := true;
    }

    /** Whether two tables hold the same map: of the same size, and every pair of the other one is found in this one. */
    method Equals(lt: LockedTable) returns (same: bool)
      requires Valid() && lt.Valid()
      ensures same <==> map_.model == lt.map_.model
    {
      hide *;
      Facts();
      lt.Facts();
      var n := map_.Size();
      var n' := lt.map_.Size();
      if n != n' {
        return false;
      }
      CurrentHolds(lt.map_.Now());
      same := FindsAll(lt.map_.buckets);
      SameContents(lt.map_.buckets.Rows(), map_.model, lt.map_.model);
    }
  }
}
