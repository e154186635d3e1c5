/** Walking over the live slots of a table in order, forwards and backwards. */
module Traversal {
  import opened Params
  import opened Rows
  import opened Container

  /** A position; the one after the last is (|t|, 0). */
  type Place = (nat, nat)

  predicate Before(p: Place, q: Place) {
    p.0 < q.0 || (p.0 == q.0 && p.1 < q.1)
  }

  function EndOf(t: Table): Place {
    (|t|, 0)
  }

  predicate IsLive(t: Table, p: Place) {
    LiveAt(t, p.0, p.1)
  }

  /** q is the first live position from p on, or the end. */
  ghost predicate FirstFrom(t: Table, p: Place, q: Place) {
    && (q == EndOf(t) || IsLive(t, q)) && !Before(q, p)
    && forall r: Place | IsLive(t, r) && !Before(r, p) :: !Before(r, q)
  }

  /** q is the first live position after p, or the end. */
  ghost predicate Next(t: Table, p: Place, q: Place) {
    FirstFrom(t, (p.0, p.1 + 1), q)
  }

  /** q is the last live position before p. */
  ghost predicate Previous(t: Table, p: Place, q: Place) {
    IsLive(t, q) && Before(q, p) && forall r: Place | IsLive(t, r) && Before(r, p) :: !Before(q, r)
  }

  lemma FirstFromLive(t: Table, p: Place, q: Place)
    requires FirstFrom(t, p, q) && IsLive(t, p)
    ensures q == p
  {
  }

  /** Going back undoes going forward from a live position, and the other way round. */
  lemma BackAndForth(t: Table, p: Place, q: Place)
    requires p.1 < SLOTS && (q == EndOf(t) || IsLive(t, q))
    ensures IsLive(t, p) && Next(t, p, q) ==> Previous(t, q, p)
    ensures Previous(t, q, p) ==> Next(t, p, q)
  {
    forall r: Place | IsLive(t, r) && Before(p, r)
      ensures !Before(r, (p.0, p.1 + 1))
    {
    }
  }

  /** A pointer to a slot of a table. */
  class Iterator {
    const buckets: BucketContainer
    var index: nat
    var slot: nat

    function At(): Place
      reads this
    {
      (index, slot)
    }

    ghost predicate Valid()
      reads this, buckets, buckets.buckets
    {
      && buckets.Valid() && buckets.buckets != null
      && (At() == EndOf(buckets.Rows()) || (index < |buckets.Rows()| && slot < SLOTS))
    }

    /** An iterator at the given position or, if that is neither live nor the end, at the next one that is. */
    constructor (b: BucketContainer, i: nat, j: nat)
      requires b.Valid() && b.buckets != null && ((i, j) == EndOf(b.Rows()) || (i < |b.Rows()| && j < SLOTS))
      ensures buckets == b && Valid() && FirstFrom(b.Rows(), (i, j), At())
    {
      buckets := b;
      index, slot := i, j;
      new;
      if (i, j) != EndOf(b.Rows()) && b.buckets[i][j].Empty? {
        Increment();
        FromDead(b.Rows(), (i, j), At());
      }
    }

    /** Moves forward to the next live slot, or to the end. */
    method Increment()
      requires Valid() && At() != EndOf(buckets.Rows())
      modifies this
      ensures Valid() && Next(buckets.Rows(), old(At()), At())
    {
      ghost var t, p := buckets.Rows(), (index, slot + 1);
      slot := slot + 1;
      while index < buckets.Size()
        invariant index <= |t| && slot <= SLOTS && (index == |t| ==> slot == 0) && buckets.Rows() == t
        invariant !Before(At(), p) && NoneBetween(t, p, At())
        decreases |t| - index
      {
        ghost var i := index;
        while slot < SLOTS
          invariant index == i < |t| && slot <= SLOTS && buckets.Rows() == t
          invariant !Before(At(), p) && NoneBetween(t, p, At())
        {
          if buckets.buckets[index][slot].Live? {
            return;
          }
          slot := slot + 1;
        }
        slot := 0;
        index := index + 1;
      }
    }

    /** Moves back to the previous live slot, which there must be one of. */
    method Decrement(ghost target: Place)
      requires Valid() && Previous(buckets.Rows(), At(), target)
      modifies this
      ensures Valid() && At() == target
    {
      ghost var t := buckets.Rows();
      StepBack();
      while buckets.buckets[index][slot].Empty?
        invariant buckets.Rows() == t && index < |t| && slot < SLOTS
        invariant Before(At(), old(At())) && !Before(At(), target)
        decreases index, slot
      {
        StepBack();
      }
    }

    /** One slot back, live or not. */
    method StepBack()
      requires (index > 0 || slot > 0) && slot < SLOTS
      modifies this
      ensures Before(At(), old(At())) && slot < SLOTS
      ensures forall p: Place | Before(p, old(At())) && p.1 < SLOTS :: !Before(At(), p)
    {
      if slot == 0 {
        index := index - 1;
        slot := SLOTS - 1;
      } else {
        slot := slot - 1;
      }
    }
  }

  ghost predicate NoneBetween(t: Table, p: Place, q: Place) {
    forall r: Place | IsLive(t, r) && !Before(r, p) :: !Before(r, q)
  }

  lemma FromDead(t: Table, p: Place, q: Place)
    requires Next(t, p, q) && !IsLive(t, p)
    ensures FirstFrom(t, p, q)
  {
    forall r: Place | IsLive(t, r) && !Before(r, p)
      ensures !Before(r, q)
    {
      assert r != p;
      assert !Before(r, (p.0, p.1 + 1));
    }
  }

  /** The live positions before p, each once and in order. */
  ghost predicate Visited(t: Table, s: seq<Place>, p: Place) {
    && (forall x | 0 <= x < |s| :: IsLive(t, s[x]) && Before(s[x], p))
    && (forall x, y | 0 <= x < y < |s| :: Before(s[x], s[y]))
    && (forall r: Place | IsLive(t, r) && Before(r, p) :: r in s)
  }

  lemma VisitedNext(t: Table, s: seq<Place>, p: Place, q: Place)
    requires Visited(t, s, p) && IsLive(t, p) && Next(t, p, q)
    ensures Visited(t, s + [p], q)
  {
    forall r: Place | IsLive(t, r) && Before(r, q)
      ensures r in s + [p]
    {
      assert Before(r, (p.0, p.1 + 1));
      assert r == p || Before(r, p);
    }
    assert !Before(q, (p.0, p.1 + 1));
  }

  function PairAt(t: Table, p: Place): (Key, Value)
    requires IsLive(t, p)
  {
    (t[p.0][p.1].key, t[p.0][p.1].value)
  }

  ghost predicate Pairs(t: Table, places: seq<Place>, s: seq<(Key, Value)>) {
    |places| == |s| && forall x | 0 <= x < |s| :: IsLive(t, places[x]) && s[x] == PairAt(t, places[x])
  }

  /** Going through a table from begin to end: every live slot is visited exactly once. */
  method Collect(b: BucketContainer) returns (s: seq<(Key, Value)>, ghost places: seq<Place>)
    requires b.Valid() && b.buckets != null && |b.Rows()| >= 1
    ensures Visited(b.Rows(), places, EndOf(b.Rows())) && Pairs(b.Rows(), places, s)
  {
    ghost var t := b.Rows();
    var it := new Iterator(b, 0, 0);
    s, places := [], [];
    while (it.index, it.slot) != (b.Size(), 0)
      invariant fresh(it) && it.buckets == b && it.Valid() && b.Rows() == t
      invariant it.At() == EndOf(t) || IsLive(t, it.At())
      invariant Visited(t, places, it.At()) && Pairs(t, places, s)
      decreases |t| - it.index, SLOTS - it.slot
    {
      ghost var p := it.At();
      var e := b.buckets[it.index][it.slot];
      it.Increment();
      VisitedNext(t, places, p, it.At());
      s, places := s + [(e.key, e.value)], places + [p];
    }
  }

  /** The pairs collected are those of the map, and no key comes twice. */
  lemma CollectedIsMap(t: Table, hp: nat, m: map<Key, Value>, places: seq<Place>, s: seq<(Key, Value)>)
    requires Represents(t, hp, m) && Visited(t, places, EndOf(t)) && Pairs(t, places, s)
    ensures forall x, y | 0 <= x < y < |s| :: s[x].0 != s[y].0
    ensures forall k, v :: (k, v) in s <==> k in m && m[k] == v
  {
    hide Placed, Shaped;
    forall x, y | 0 <= x < y < |s|
      ensures s[x].0 != s[y].0
    {
      assert Before(places[x], places[y]);
    }
    forall k, v
      ensures (k, v) in s <==> k in m && m[k] == v
    {
      if (k, v) in s {
        var x :| 0 <= x < |s| && s[x] == (k, v);
        assert LiveAt(t, places[x].0, places[x].1);
      }
      if k in m && m[k] == v {
        assert Stored(t, k);
        var i, j :| LiveAt(t, i, j) && t[i][j].key == k;
        assert IsLive(t, (i, j)) && Before((i, j), EndOf(t));
        var x :| 0 <= x < |places| && places[x] == (i, j);
        assert s[x] == (k, v);
      }
    }
  }
}
