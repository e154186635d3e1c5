/** Displacement paths through a table: following them, shortest ones, and carrying them out. */
module Paths {
  import opened Params
  import opened Hashing
  import opened Rows
  import opened PathCode

  datatype Option<T> = None | Some(value: T)

  /** The bucket reached from bucket b by displacing, one after another, the pairs in the given slots. */
  function Follow(t: Table, hp: nat, b: nat, slots: seq<nat>): (e: Option<nat>)
    requires Shaped(t, hp) && b < |t|
    ensures e.Some? ==> e.value < |t| && SlotsBelow(SLOTS, slots)
  {
    if slots == [] then
      Some(b)
    else
      var n := |slots| - 1;
      var e := Follow(t, hp, b, slots[..n]);
      if e.None? || slots[n] >= SLOTS || t[e.value][slots[n]].Empty? then None
      else
        IndexBound(hp, 0, t[e.value][slots[n]].partial, e.value);
        Some(AltIndex(hp, t[e.value][slots[n]].partial, e.value))
  }

  predicate Full(b: Bucket) {
    forall j | 0 <= j < |b| :: b[j].Live?
  }

  /** No path of fewer than d displacements from bucket b ends in a bucket with a free slot. */
  ghost predicate NoneShorter(t: Table, hp: nat, b: nat, d: nat)
    requires Shaped(t, hp) && b < |t|
  {
    forall slots | |slots| < d && Follow(t, hp, b, slots).Some? :: Full(t[Follow(t, hp, b, slots).value])
  }

  lemma {:induction false} FollowConcat(t: Table, hp: nat, b: nat, p: seq<nat>, q: seq<nat>)
    requires Shaped(t, hp) && b < |t| && Follow(t, hp, b, p).Some?
    ensures Follow(t, hp, b, p + q) == Follow(t, hp, Follow(t, hp, b, p).value, q)
    decreases |q|
  {
    hide AltIndex, Shaped;
    if q == [] {
      assert p + q == p;
    } else {
      var n := |q| - 1;
      FollowConcat(t, hp, b, p, q[..n]);
      assert (p + q)[..|p| + n] == p + q[..n];
    }
  }

  lemma {:induction false} FollowPrefix(t: Table, hp: nat, b: nat, slots: seq<nat>, n: nat)
    requires Shaped(t, hp) && b < |t| && Follow(t, hp, b, slots).Some? && n <= |slots|
    ensures Follow(t, hp, b, slots[..n]).Some?
    decreases |slots|
  {
    if n < |slots| {
      var m := |slots| - 1;
      FollowPrefix(t, hp, b, slots[..m], n);
      assert slots[..m][..n] == slots[..n];
    } else {
      assert slots[..n] == slots;
    }
  }

  /** The bucket where step x of a path starts. */
  function Stop(t: Table, hp: nat, b: nat, slots: seq<nat>, x: nat): (e: nat)
    requires Shaped(t, hp) && b < |t| && Follow(t, hp, b, slots).Some? && x <= |slots|
    ensures e < |t|
  {
    FollowPrefix(t, hp, b, slots, x);
    Follow(t, hp, b, slots[..x]).value
  }

  lemma StopStep(t: Table, hp: nat, b: nat, slots: seq<nat>, x: nat)
    requires Shaped(t, hp) && b < |t| && Follow(t, hp, b, slots).Some? && x < |slots|
    ensures slots[x] < SLOTS && LiveAt(t, Stop(t, hp, b, slots, x), slots[x])
    ensures Stop(t, hp, b, slots, x + 1)
         == AltIndex(hp, t[Stop(t, hp, b, slots, x)][slots[x]].partial, Stop(t, hp, b, slots, x))
  {
    FollowPrefix(t, hp, b, slots, x + 1);
    assert slots[..x + 1][..x] == slots[..x];
  }

  /** Cutting a loop out of a path leads to the same end. */
  lemma CutLoop(t: Table, hp: nat, b: nat, slots: seq<nat>, x: nat, y: nat)
    requires Shaped(t, hp) && b < |t| && Follow(t, hp, b, slots).Some?
    requires x < y <= |slots| && Stop(t, hp, b, slots, x) == Stop(t, hp, b, slots, y)
    ensures Follow(t, hp, b, slots[..x] + slots[y..]) == Follow(t, hp, b, slots)
  {
    hide Follow;
    FollowPrefix(t, hp, b, slots, x);
    FollowPrefix(t, hp, b, slots, y);
    FollowConcat(t, hp, b, slots[..x], slots[y..]);
    FollowConcat(t, hp, b, slots[..y], slots[y..]);
    assert slots[..y] + slots[y..] == slots;
  }

  /** A shortest path to a free slot never visits a bucket twice: cutting out the loop would give a shorter one. */
  lemma ShortestVisitsOnce(t: Table, hp: nat, b: nat, slots: seq<nat>, x: nat, y: nat)
    requires Shaped(t, hp) && b < |t| && Follow(t, hp, b, slots).Some?
    requires !Full(t[Follow(t, hp, b, slots).value]) && NoneShorter(t, hp, b, |slots|)
    requires x < y <= |slots|
    ensures Stop(t, hp, b, slots, x) != Stop(t, hp, b, slots, y)
  {
    hide Follow, Stop;
    if Stop(t, hp, b, slots, x) == Stop(t, hp, b, slots, y) {
      CutLoop(t, hp, b, slots, x, y);
    }
  }

  /** A route as the displacement carries it out: the bucket and the slot of every stop, the last slot being free. */
  datatype Route = Route(buckets: seq<nat>, slots: seq<nat>) {

    /** The pairs at all stops but the last can move on to the next stop. */
    ghost predicate Leads(t: Table, hp: nat) {
      && Shaped(t, hp)
      && |buckets| == |slots| >= 1
      && (forall x | 0 <= x < |buckets| :: buckets[x] < |t| && slots[x] < SLOTS)
      && (forall x | 0 <= x < |buckets| - 1 :: LiveAt(t, buckets[x], slots[x]))
      && (forall x | 0 <= x < |buckets| - 1 ::
            buckets[x + 1] == AltIndex(hp, t[buckets[x]][slots[x]].partial, buckets[x]))
    }

    ghost predicate VisitsOnce() {
      forall x, y | 0 <= x < y < |buckets| :: buckets[x] != buckets[y]
    }

    /** The table after the displacements from stop |buckets|-1 down to stop d have been carried out. */
    ghost predicate CarriedTo(before: Table, now: Table, d: nat)
      requires |buckets| == |slots|
    {
      && d < |buckets| && |now| == |before|
      && (forall x | 0 <= x <= d :: buckets[x] < |now| && slots[x] < |now[buckets[x]]|)
      && (forall x | 0 <= x < d :: now[buckets[x]] == before[buckets[x]])
      && now[buckets[d]][slots[d]].Empty?
    }
  }

  /** One more displacement along a route that visits no bucket twice succeeds and keeps the map. */
  lemma CarryOneBack(r: Route, before: Table, now: Table, hp: nat, m: map<Key, Value>, d: nat)
    requires r.Leads(before, hp) && r.VisitsOnce() && Represents(now, hp, m)
    requires 1 <= d < |r.buckets| && r.CarriedTo(before, now, d)
    ensures LiveAt(now, r.buckets[d - 1], r.slots[d - 1])
    ensures now[r.buckets[d - 1]][r.slots[d - 1]] == before[r.buckets[d - 1]][r.slots[d - 1]]
    ensures var next := Displaced(now, r.buckets[d - 1], r.slots[d - 1], r.buckets[d], r.slots[d]);
            Represents(next, hp, m) && r.CarriedTo(before, next, d - 1)
  {
    var f, fs, g, gs := r.buckets[d - 1], r.slots[d - 1], r.buckets[d], r.slots[d];
    assert now[f] == before[f];
    assert LiveAt(before, f, fs);
    DisplaceKeeps(now, hp, m, f, fs, g, gs);
    var next := Displaced(now, f, fs, g, gs);
    forall x | 0 <= x < d - 1
      ensures next[r.buckets[x]] == before[r.buckets[x]]
    {
      assert r.buckets[x] != f && r.buckets[x] != g;
    }
  }

  /** The route of a path that was found by the search. */
  ghost function RouteOf(t: Table, hp: nat, b: nat, slots: seq<nat>, free: nat): (r: Route)
    requires Shaped(t, hp) && b < |t| && Follow(t, hp, b, slots).Some?
    ensures |r.buckets| == |r.slots| == |slots| + 1
    ensures r.slots == slots + [free]
    ensures forall x | 0 <= x <= |slots| :: r.buckets[x] == Stop(t, hp, b, slots, x)
  {
    Route(seq(|slots| + 1, x requires 0 <= x < |slots| + 1 => Stop(t, hp, b, slots, x)), slots + [free])
  }

  /** The route of a shortest path can be carried out, starting with its free slot. */
  lemma ShortestRoute(t: Table, hp: nat, b: nat, slots: seq<nat>, free: nat)
    requires Shaped(t, hp) && b < |t| && Follow(t, hp, b, slots).Some?
    requires free < SLOTS && t[Follow(t, hp, b, slots).value][free].Empty? && NoneShorter(t, hp, b, |slots|)
    ensures var r := RouteOf(t, hp, b, slots, free);
            r.Leads(t, hp) && r.VisitsOnce() && r.CarriedTo(t, t, |slots|) && r.buckets[0] == b
  {
    var r := RouteOf(t, hp, b, slots, free);
    forall x | 0 <= x < |slots|
      ensures LiveAt(t, r.buckets[x], r.slots[x])
      ensures r.buckets[x + 1] == AltIndex(hp, t[r.buckets[x]][r.slots[x]].partial, r.buckets[x])
    {
      StopStep(t, hp, b, slots, x);
    }
    forall x, y | 0 <= x < y <= |slots|
      ensures r.buckets[x] != r.buckets[y]
    {
      ShortestVisitsOnce(t, hp, b, slots, x, y);
    }
    assert slots[..|slots|] == slots;
    assert slots[..0] == [];
  }
}
