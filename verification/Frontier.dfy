/** The breadth-first search for a displacement path: its queue, and why it is complete, minimal and fits the queue. */
module Frontier {
  import opened Bits
  import opened Params
  import opened Hashing
  import opened Rows
  import opened PathCode
  import opened Paths

  /** An entry of the search queue. */
  datatype BSlot = BSlot(bucket: nat, pathcode: nat, depth: int)

  /** The path an entry stands for: a root (0 for the first bucket, 1 for the second) and the slots followed. */
  datatype Node = Node(root: nat, slots: seq<nat>) {
    function Child(slot: nat): Node {
      Node(root, slots + [slot])
    }
  }

  function Root(i1: nat, i2: nat, root: nat): nat {
    if root == 0 then i1 else i2
  }

  predicate Stands(t: Table, hp: nat, i1: nat, i2: nat, x: BSlot, n: Node)
    requires Shaped(t, hp) && i1 < |t| && i2 < |t|
  {
    && n.root <= 1 && |n.slots| < MAX_BFS_PATH_LEN
    && Follow(t, hp, Root(i1, i2, n.root), n.slots) == Some(x.bucket)
    && x.depth == |n.slots|
    && x.pathcode == Encode16(SLOTS, n.root, n.slots)
  }

  /** Depths do not decrease along the queue, and unexpanded entries differ in depth by at most one. */
  ghost predicate Ordered(nodes: seq<Node>, done: nat) {
    && (forall j, k | 0 <= j < k < |nodes| :: |nodes[j].slots| <= |nodes[k].slots|)
    && (forall j, k | done <= j < |nodes| && 0 <= k < |nodes| :: |nodes[k].slots| <= |nodes[j].slots| + 1)
  }

  lemma OrderedAppend(nodes: seq<Node>, done: nat, c: Node)
    requires Ordered(nodes, done) && done < |nodes| && |c.slots| == |nodes[done].slots| + 1
    ensures Ordered(nodes + [c], done)
  {
    assert forall k | 0 <= k < |nodes| :: |nodes[k].slots| <= |c.slots|;
  }

  /** What holds of the queue entries and the nodes they stand for when the first `done` of them have been expanded. */
  ghost predicate Explored(t: Table, hp: nat, i1: nat, i2: nat, items: seq<BSlot>, nodes: seq<Node>, done: nat) {
    && Shaped(t, hp) && i1 < |t| && i2 < |t|
    && |items| == |nodes| >= 2 && done <= |nodes|
    && nodes[0] == Node(0, []) && nodes[1] == Node(1, [])
    && (forall k | 0 <= k < |nodes| :: Stands(t, hp, i1, i2, items[k], nodes[k]))
    && Ordered(nodes, done)
    && (forall k | 0 <= k < done :: Full(t[items[k].bucket]))
    && (forall k, slot | 0 <= k < done && 0 <= slot < SLOTS && |nodes[k].slots| < MAX_BFS_PATH_LEN - 1 ::
          nodes[k].Child(slot) in nodes)
  }

  lemma RootsExplored(t: Table, hp: nat, i1: nat, i2: nat)
    requires Shaped(t, hp) && i1 < |t| && i2 < |t|
    ensures Explored(t, hp, i1, i2, [BSlot(i1, 0, 0), BSlot(i2, 1, 0)], [Node(0, []), Node(1, [])], 0)
  {
  }

  /** Every slot sequence shorter than all unexpanded entries belongs to an expanded entry. */
  lemma {:induction false} ShallowDone(t: Table, hp: nat, i1: nat, i2: nat, items: seq<BSlot>, nodes: seq<Node>, done: nat,
                                       n: Node, d: nat)
    requires Explored(t, hp, i1, i2, items, nodes, done)
    requires d <= MAX_BFS_PATH_LEN && forall k | done <= k < |nodes| :: d <= |nodes[k].slots|
    requires n.root <= 1 && SlotsBelow(SLOTS, n.slots) && |n.slots| < d
    ensures n in nodes[..done]
    decreases |n.slots|
  {
    hide Stands, Full, Ordered, Shaped;
    var k;
    if n.slots == [] {
      k := n.root;
      assert nodes[k] == n;
    } else {
      var m := |n.slots| - 1;
      var parent := Node(n.root, n.slots[..m]);
      ShallowDone(t, hp, i1, i2, items, nodes, done, parent, d);
      var j :| 0 <= j < done && nodes[j] == parent;
      assert n == parent.Child(n.slots[m]) by {
        assert n.slots == n.slots[..m] + [n.slots[m]];
      }
      k :| 0 <= k < |nodes| && nodes[k] == n;
    }
    assert k < done;
    assert nodes[..done][k] == n;
  }

  /** So no path shorter than the unexpanded entries ends in a bucket with a free slot. */
  lemma NoneShallower(t: Table, hp: nat, i1: nat, i2: nat, items: seq<BSlot>, nodes: seq<Node>, done: nat, d: nat)
    requires Explored(t, hp, i1, i2, items, nodes, done)
    requires d <= MAX_BFS_PATH_LEN && forall k | done <= k < |nodes| :: d <= |nodes[k].slots|
    ensures NoneShorter(t, hp, i1, d) && NoneShorter(t, hp, i2, d)
  {
    forall root, slots | 0 <= root <= 1 && |slots| < d && Follow(t, hp, Root(i1, i2, root), slots).Some?
      ensures Full(t[Follow(t, hp, Root(i1, i2, root), slots).value])
    {
      var n := Node(root, slots);
      ShallowDone(t, hp, i1, i2, items, nodes, done, n, d);
      var k :| 0 <= k < done && nodes[k] == n;
      assert Stands(t, hp, i1, i2, items[k], nodes[k]);
    }
    assert Root(i1, i2, 0) == i1 && Root(i1, i2, 1) == i2;
  }

  /** The code of a path with one more slot, truncated to 16 bits. */
  function Packed(code: nat, slot: nat): nat {
    Extend(SLOTS, code, slot) % WORD16
  }

  /** The entry for the bucket that the pair in the given slot of x's bucket b would be displaced to. */
  function ChildEntry(hp: nat, x: BSlot, b: Bucket, slot: nat): BSlot
    requires slot < |b| && b[slot].Live?
  {
    BSlot(AltIndex(hp, b[slot].partial, x.bucket), Packed(x.pathcode, slot), x.depth + 1)
  }

  lemma ChildStands(t: Table, hp: nat, i1: nat, i2: nat, x: BSlot, n: Node, slot: nat)
    requires Shaped(t, hp) && i1 < |t| && i2 < |t| && Stands(t, hp, i1, i2, x, n)
    requires slot < SLOTS && t[x.bucket][slot].Live? && |n.slots| < MAX_BFS_PATH_LEN - 1
    ensures Stands(t, hp, i1, i2, ChildEntry(hp, x, t[x.bucket], slot), n.Child(slot))
  {
    hide AltIndex, Extend, Shaped;
    var c := n.Child(slot);
    assert c.slots[..|c.slots| - 1] == n.slots;
  }

  /** The entry for the child of the entry being expanded keeps everything in place. */
  lemma EnqueueChild(t: Table, hp: nat, i1: nat, i2: nat, items: seq<BSlot>, nodes: seq<Node>, done: nat, slot: nat)
    requires Explored(t, hp, i1, i2, items, nodes, done) && done < |nodes|
    requires slot < SLOTS && t[items[done].bucket][slot].Live? && |nodes[done].slots| < MAX_BFS_PATH_LEN - 1
    ensures Explored(t, hp, i1, i2, items + [ChildEntry(hp, items[done], t[items[done].bucket], slot)],
                     nodes + [nodes[done].Child(slot)], done)
  {
    ChildStands(t, hp, i1, i2, items[done], nodes[done], slot);
    OrderedAppend(nodes, done, nodes[done].Child(slot));
    hide Stands, Full, ChildEntry, Shaped, Ordered;
    var y, c := ChildEntry(hp, items[done], t[items[done].bucket], slot), nodes[done].Child(slot);
    var items', nodes' := items + [y], nodes + [c];
    forall k | 0 <= k < |nodes'|
      ensures Stands(t, hp, i1, i2, items'[k], nodes'[k])
    {
    }
    assert forall n | n in nodes :: n in nodes';
  }

  /** An entry whose bucket is full and whose children are all queued counts as expanded. */
  lemma Expanded(t: Table, hp: nat, i1: nat, i2: nat, items: seq<BSlot>, nodes: seq<Node>, done: nat)
    requires Explored(t, hp, i1, i2, items, nodes, done) && done < |nodes|
    requires Full(t[items[done].bucket])
    requires |nodes[done].slots| < MAX_BFS_PATH_LEN - 1 ==>
               forall slot | 0 <= slot < SLOTS :: nodes[done].Child(slot) in nodes
    ensures Explored(t, hp, i1, i2, items, nodes, done + 1)
  {
  }

  /** x is what the search returns for the path n with the free slot `free` at its end, and no path is shorter. */
  ghost predicate ShortestFound(t: Table, hp: nat, i1: nat, i2: nat, x: BSlot, n: Node, free: nat) {
    && Shaped(t, hp) && i1 < |t| && i2 < |t|
    && n.root <= 1 && |n.slots| < MAX_BFS_PATH_LEN && x.depth == |n.slots|
    && Follow(t, hp, Root(i1, i2, n.root), n.slots) == Some(x.bucket)
    && free < SLOTS && t[x.bucket][free].Empty?
    && x.pathcode == Encode16(SLOTS, n.root, n.slots + [free])
    && NoneShorter(t, hp, i1, |n.slots|) && NoneShorter(t, hp, i2, |n.slots|)
  }

  /** The search fails exactly when no path within the length limit ends in a bucket with a free slot. */
  ghost predicate NothingFound(t: Table, hp: nat, i1: nat, i2: nat) {
    && Shaped(t, hp) && i1 < |t| && i2 < |t|
    && NoneShorter(t, hp, i1, MAX_BFS_PATH_LEN) && NoneShorter(t, hp, i2, MAX_BFS_PATH_LEN)
  }

  /** The answer r of the search, with the path and the free slot behind it. */
  ghost predicate Searched(t: Table, hp: nat, i1: nat, i2: nat, r: BSlot, n: Node, free: nat) {
    if r.depth == -1 then NothingFound(t, hp, i1, i2)
    else 0 <= r.depth < MAX_BFS_PATH_LEN && ShortestFound(t, hp, i1, i2, r, n, free)
  }

  lemma SearchedNothing(t: Table, hp: nat, i1: nat, i2: nat, r: BSlot, n: Node, free: nat)
    requires r.depth == -1 && NothingFound(t, hp, i1, i2)
    ensures Searched(t, hp, i1, i2, r, n, free)
  {
    hide NothingFound;
  }

  lemma SearchedSome(t: Table, hp: nat, i1: nat, i2: nat, r: BSlot, n: Node, free: nat)
    requires ShortestFound(t, hp, i1, i2, r, n, free)
    ensures Searched(t, hp, i1, i2, r, n, free)
  {
    hide NoneShorter, Follow, Encode16;
  }

  lemma SearchSucceeds(t: Table, hp: nat, i1: nat, i2: nat, items: seq<BSlot>, nodes: seq<Node>, done: nat, free: nat)
    requires Explored(t, hp, i1, i2, items, nodes, done) && done < |nodes|
    requires free < SLOTS && t[items[done].bucket][free].Empty?
    ensures var x := items[done];
            ShortestFound(t, hp, i1, i2, BSlot(x.bucket, Packed(x.pathcode, free), x.depth), nodes[done], free)
  {
    var x, n := items[done], nodes[done];
    assert Stands(t, hp, i1, i2, x, n);
    NoneShallower(t, hp, i1, i2, items, nodes, done, |n.slots|);
    assert (n.slots + [free])[..|n.slots|] == n.slots;
    hide Follow, NoneShorter, Explored, Extend;
  }

  lemma SearchFails(t: Table, hp: nat, i1: nat, i2: nat, items: seq<BSlot>, nodes: seq<Node>)
    requires Explored(t, hp, i1, i2, items, nodes, |nodes|)
    ensures NothingFound(t, hp, i1, i2)
  {
    NoneShallower(t, hp, i1, i2, items, nodes, |nodes|, MAX_BFS_PATH_LEN);
  }

  /** The answer of the search is right either way: a found path refutes failure. */
  lemma FoundRefutesFailure(t: Table, hp: nat, i1: nat, i2: nat, x: BSlot, n: Node, free: nat)
    requires ShortestFound(t, hp, i1, i2, x, n, free)
    ensures !NothingFound(t, hp, i1, i2)
  {
    assert !Full(t[x.bucket]);
  }

  /** When the search fails, both starting buckets are full. */
  lemma NothingFoundFull(t: Table, hp: nat, i1: nat, i2: nat)
    requires NothingFound(t, hp, i1, i2)
    ensures i1 < |t| && i2 < |t| && Full(t[i1]) && Full(t[i2])
  {
    assert Follow(t, hp, i1, []) == Some(i1) && Follow(t, hp, i2, []) == Some(i2);
    hide Full;
  }

  // The size of the queue.

  /** MAX_CUCKOO_COUNT. */
  function MaxCuckooCount(s: nat): nat
    requires s >= 1
  {
    2 * (if s == 1 then MAX_BFS_PATH_LEN else (ConstPow(s, MAX_BFS_PATH_LEN) - 1) / (s - 1))
  }

  /** The number of entries that can still be queued below an entry at depth d. */
  function Subtree(s: nat, d: int): nat
    decreases MAX_BFS_PATH_LEN - d
  {
    if d >= MAX_BFS_PATH_LEN - 1 then 0 else s * (1 + Subtree(s, d + 1))
  }

  function Pending(s: nat, items: seq<BSlot>): nat {
    if items == [] then 0 else Subtree(s, items[0].depth) + Pending(s, items[1..])
  }

  lemma {:induction false} PendingAppend(s: nat, items: seq<BSlot>, y: BSlot)
    ensures Pending(s, items + [y]) == Pending(s, items) + Subtree(s, y.depth)
  {
    hide Subtree;
    if items != [] {
      PendingAppend(s, items[1..], y);
      assert (items + [y])[1..] == items[1..] + [y];
    } else {
      assert ([] + [y])[1..] == items;
    }
  }

  lemma GeometricStep(s: nat, x: nat, p: nat)
    requires s >= 1 && (s - 1) * x == p - 1
    ensures (s - 1) * (1 + s * x) == s * p - 1
  {
    assert (s - 1) * (s * x) == s * ((s - 1) * x);
    assert s * (p - 1) == s * p - s;
    assert (s - 1) * (1 + s * x) == (s - 1) + (s - 1) * (s * x);
  }

  /** The sum of the geometric series, times the denominator of MAX_CUCKOO_COUNT. */
  lemma {:induction false} Geometric(s: nat, d: nat)
    requires s >= 1 && d < MAX_BFS_PATH_LEN
    ensures (s - 1) * (1 + Subtree(s, d)) == ConstPow(s, MAX_BFS_PATH_LEN - d) - 1
    decreases MAX_BFS_PATH_LEN - d
  {
    if d == MAX_BFS_PATH_LEN - 1 {
      assert ConstPow(s, 1) == s * ConstPow(s, 0) == s;
    } else {
      Geometric(s, d + 1);
      GeometricStep(s, 1 + Subtree(s, d + 1), ConstPow(s, MAX_BFS_PATH_LEN - (d + 1)));
    }
  }

  /** Both roots and everything below them fill the queue exactly. */
  lemma QueueFits(s: nat)
    requires s >= 1
    ensures 2 * (1 + Subtree(s, 0)) == MaxCuckooCount(s)
  {
    if s == 1 {
      assert Subtree(1, 3) == 1 && Subtree(1, 2) == 2 && Subtree(1, 1) == 3 && Subtree(1, 0) == 4;
    } else {
      var x, p := 1 + Subtree(s, 0), ConstPow(s, MAX_BFS_PATH_LEN);
      assert (p - 1) / (s - 1) == x by {
        Geometric(s, 0);
        hide Subtree, ConstPow;
        assert x * (s - 1) == (s - 1) * x;
        DivModUnique(p - 1, s - 1, x, 0);
      }
      hide Subtree, ConstPow;
      assert MaxCuckooCount(s) == 2 * ((p - 1) / (s - 1));
    }
  }

  lemma QueueHasRoom()
    ensures MaxCuckooCount(SLOTS) >= 2
  {
    QueueFits(SLOTS);
  }

  lemma RootsPending(i1: nat, i2: nat)
    ensures 2 + Pending(SLOTS, [BSlot(i1, 0, 0), BSlot(i2, 1, 0)]) == MaxCuckooCount(SLOTS)
  {
    var x, y := BSlot(i1, 0, 0), BSlot(i2, 1, 0);
    QueueFits(SLOTS);
    assert [x, y][1..] == [y] && [y][1..] == [];
    assert Pending(SLOTS, [y]) == Subtree(SLOTS, 0) + Pending(SLOTS, []);
  }

  /** The slot visited i steps after slot `start`, cyclically. */
  function Turn(start: nat, i: nat): (slot: nat)
    ensures slot < SLOTS
  {
    (start + i) % SLOTS
  }

  lemma CyclicCover(start: nat, slot: nat) returns (i: nat)
    requires start < SLOTS && slot < SLOTS
    ensures i < SLOTS && Turn(start, i) == slot
  {
    if slot >= start {
      i := slot - start;
      SmallMod(slot, SLOTS);
    } else {
      i := slot + SLOTS - start;
      DivModUnique(slot + SLOTS, SLOTS, 1, slot);
    }
  }

  // Any search, whatever the buckets contain when they are read.

  /** The pathcode of an entry packs its root and one slot for every displacement. */
  predicate Coded(hp: nat, x: BSlot) {
    && x.bucket < HashSize(hp) && 0 <= x.depth < MAX_BFS_PATH_LEN
    && Decode(SLOTS, x.pathcode, x.depth).0 <= 1
  }

  lemma PackedDecodes(code: nat, depth: nat, slot: nat)
    requires depth < MAX_BFS_PATH_LEN && Decode(SLOTS, code, depth).0 <= 1 && slot < SLOTS
    ensures Packed(code, slot) == Extend(SLOTS, code, slot)
    ensures Decode(SLOTS, Packed(code, slot), depth + 1).0 == Decode(SLOTS, code, depth).0
  {
    var r := Decode(SLOTS, code, depth);
    EncodeDecode(SLOTS, code, depth);
    EncodeBound(SLOTS, r.0, r.1);
    ExtendFits(code, depth, slot);
    DivModUnique(Extend(SLOTS, code, slot), SLOTS, code, slot);
  }

  lemma ExtendFits(code: nat, depth: nat, slot: nat)
    requires depth < MAX_BFS_PATH_LEN && code < 2 * ConstPow(SLOTS, depth) && slot < SLOTS
    ensures Packed(code, slot) == Extend(SLOTS, code, slot)
  {
    ExtendBound(code, ConstPow(SLOTS, depth), SLOTS, slot);
    ConstPowIncreasing(SLOTS, depth + 1, MAX_BFS_PATH_LEN);
    EightSlotsFit(SLOTS);
    assert ConstPow(SLOTS, depth + 1) == SLOTS * ConstPow(SLOTS, depth);
    SmallMod(Extend(SLOTS, code, slot), WORD16);
  }

  lemma ChildCoded(hp: nat, x: BSlot, b: Bucket, slot: nat)
    requires Coded(hp, x) && x.depth < MAX_BFS_PATH_LEN - 1 && slot < SLOTS && slot < |b| && b[slot].Live?
    ensures Coded(hp, ChildEntry(hp, x, b, slot))
  {
    IndexBound(hp, 0, b[slot].partial, x.bucket);
    PackedDecodes(x.pathcode, x.depth, slot);
    hide AltIndex, Decode, Packed;
  }

  /** The slots visited in the first i steps from `start` are occupied. */
  predicate Occupied(b: Bucket, start: nat, i: nat) {
    |b| == SLOTS && i <= SLOTS && forall k | 0 <= k < i :: b[Turn(start, k)].Live?
  }

  /** The first free slot of a bucket, from step i of the round on that begins at `start`. */
  function FreeFrom(b: Bucket, start: nat, i: nat): (free: Option<nat>)
    requires Occupied(b, start, i)
    ensures free.None? ==> Occupied(b, start, SLOTS)
    ensures free.Some? ==> free.value < SLOTS && b[free.value].Empty?
    decreases SLOTS - i
  {
    if i == SLOTS then None
    else if b[Turn(start, i)].Empty? then Some(Turn(start, i))
    else FreeFrom(b, start, i + 1)
  }

  /** A round of the whole bucket sees every slot. */
  lemma RoundIsFull(b: Bucket, start: nat)
    requires start < SLOTS && Occupied(b, start, SLOTS)
    ensures Full(b)
  {
    forall slot | 0 <= slot < SLOTS
      ensures b[slot].Live?
    {
      var k := CyclicCover(start, slot);
    }
  }

  /** The entries queued in the first i steps of expanding x, whose bucket is b. */
  function Children(hp: nat, x: BSlot, b: Bucket, i: nat): (c: seq<BSlot>)
    requires Occupied(b, x.pathcode % SLOTS, i)
  {
    if i == 0 || x.depth >= MAX_BFS_PATH_LEN - 1 then []
    else Children(hp, x, b, i - 1) + [ChildEntry(hp, x, b, Turn(x.pathcode % SLOTS, i - 1))]
  }

  /** The queue, of which the first `done` entries have been expanded, has room for all that can still follow. */
  predicate Fits(hp: nat, items: seq<BSlot>, done: nat) {
    && done <= |items| && (forall k | 0 <= k < |items| :: Coded(hp, items[k]))
    && |items| + Pending(SLOTS, items[done..]) == MaxCuckooCount(SLOTS)
  }

  /** The same in the middle of expanding entry `done`, after i steps. */
  predicate FitsPart(hp: nat, items: seq<BSlot>, done: nat, i: nat) {
    && done < |items| && i <= SLOTS && (forall k | 0 <= k < |items| :: Coded(hp, items[k]))
    && |items| + Pending(SLOTS, items[done + 1..]) + Unqueued(items[done].depth, i) == MaxCuckooCount(SLOTS)
  }

  /** What the slots that were not looked at yet may still add to the queue. */
  function Unqueued(depth: int, i: nat): nat
    requires i <= SLOTS
  {
    if depth < MAX_BFS_PATH_LEN - 1 then (SLOTS - i) * (1 + Subtree(SLOTS, depth + 1)) else 0
  }

  lemma UnqueuedStep(depth: int, i: nat)
    requires i < SLOTS
    ensures depth < MAX_BFS_PATH_LEN - 1 ==> Unqueued(depth, i) == Unqueued(depth, i + 1) + 1 + Subtree(SLOTS, depth + 1)
    ensures depth >= MAX_BFS_PATH_LEN - 1 ==> Unqueued(depth, i) == Unqueued(depth, i + 1)
  {
    hide Subtree;
    var w := 1 + Subtree(SLOTS, depth + 1);
    assert (SLOTS - i) * w == (SLOTS - (i + 1)) * w + w;
  }

  lemma FitsStarts(hp: nat, i1: nat, i2: nat)
    requires i1 < HashSize(hp) && i2 < HashSize(hp)
    ensures Fits(hp, [BSlot(i1, 0, 0), BSlot(i2, 1, 0)], 0)
  {
    hide MaxCuckooCount, HashSize;
    RootsPending(i1, i2);
    var items := [BSlot(i1, 0, 0), BSlot(i2, 1, 0)];
    assert items[0..] == items;
  }

  lemma FitsRoom(hp: nat, items: seq<BSlot>, done: nat)
    requires Fits(hp, items, done)
    ensures done <= |items| <= MaxCuckooCount(SLOTS) && forall k | 0 <= k < |items| :: Coded(hp, items[k])
  {
    hide MaxCuckooCount, Coded;
  }

  lemma FitsOpens(hp: nat, items: seq<BSlot>, done: nat)
    requires Fits(hp, items, done) && done < |items|
    ensures FitsPart(hp, items, done, 0)
  {
    assert items[done..][1..] == items[done + 1..];
    hide Coded, MaxCuckooCount;
  }

  lemma FitsCloses(hp: nat, items: seq<BSlot>, done: nat)
    requires FitsPart(hp, items, done, SLOTS)
    ensures Fits(hp, items, done + 1)
  {
    hide Coded, MaxCuckooCount, Pending, Subtree;
  }

  /** At full depth nothing is queued. */
  lemma FitsSkips(hp: nat, items: seq<BSlot>, done: nat, i: nat)
    requires FitsPart(hp, items, done, i) && i < SLOTS && items[done].depth >= MAX_BFS_PATH_LEN - 1
    ensures FitsPart(hp, items, done, i + 1)
  {
    UnqueuedStep(items[done].depth, i);
    hide Coded, MaxCuckooCount, Pending, Subtree, Unqueued;
  }

  /** There is room for every child that is queued. */
  lemma FitsQueues(hp: nat, items: seq<BSlot>, done: nat, i: nat, y: BSlot)
    requires FitsPart(hp, items, done, i) && i < SLOTS && Coded(hp, y)
    requires y.depth == items[done].depth + 1 < MAX_BFS_PATH_LEN
    ensures |items| < MaxCuckooCount(SLOTS) && FitsPart(hp, items + [y], done, i + 1)
  {
    UnqueuedStep(items[done].depth, i);
    PendingAppend(SLOTS, items[done + 1..], y);
    assert (items + [y])[done + 1..] == items[done + 1..] + [y];
    hide Coded, MaxCuckooCount, Pending, Subtree, Unqueued;
  }

  lemma ChildrenGrow(hp: nat, x: BSlot, b: Bucket, i: nat)
    requires Occupied(b, x.pathcode % SLOTS, i + 1)
    ensures Children(hp, x, b, i + 1) ==
            if x.depth >= MAX_BFS_PATH_LEN - 1 then Children(hp, x, b, i)
            else Children(hp, x, b, i) + [ChildEntry(hp, x, b, Turn(x.pathcode % SLOTS, i))]
  {
    hide ChildEntry, Turn;
  }

  /** Whatever bucket is read for the entry to be expanded, all its children find room. */
  lemma {:induction false} ExpansionFits(hp: nat, items: seq<BSlot>, done: nat, b: Bucket, i: nat)
    requires Fits(hp, items, done) && done < |items| && Occupied(b, items[done].pathcode % SLOTS, i)
    ensures FitsPart(hp, items + Children(hp, items[done], b, i), done, i)
  {
    hide Fits, FitsPart, Coded, MaxCuckooCount, Turn, ChildEntry;
    FitsRoom(hp, items, done);
    if i == 0 {
      FitsOpens(hp, items, done);
      assert items + [] == items;
    } else {
      ExpansionFits(hp, items, done, b, i - 1);
      ChildrenGrow(hp, items[done], b, i - 1);
      FitsChild(hp, items, items + Children(hp, items[done], b, i - 1), done, b, i - 1);
      ChildrenAppend(hp, items, items[done], b, i - 1);
    }
  }

  lemma ChildrenAppend(hp: nat, items: seq<BSlot>, x: BSlot, b: Bucket, i: nat)
    requires Occupied(b, x.pathcode % SLOTS, i + 1)
    ensures items + Children(hp, x, b, i + 1) ==
            if x.depth >= MAX_BFS_PATH_LEN - 1 then items + Children(hp, x, b, i)
            else items + Children(hp, x, b, i) + [ChildEntry(hp, x, b, Turn(x.pathcode % SLOTS, i))]
  {
    ChildrenGrow(hp, x, b, i);
    hide Children, ChildEntry, Turn;
  }

  lemma FitsChild(hp: nat, items: seq<BSlot>, now: seq<BSlot>, done: nat, b: Bucket, i: nat)
    requires done < |items| <= |now| && now[done] == items[done] && FitsPart(hp, now, done, i) && i < SLOTS
    requires Occupied(b, items[done].pathcode % SLOTS, i + 1)
    ensures var x := items[done];
            if x.depth >= MAX_BFS_PATH_LEN - 1 then FitsPart(hp, now, done, i + 1)
            else |now| < MaxCuckooCount(SLOTS)
                 && FitsPart(hp, now + [ChildEntry(hp, x, b, Turn(x.pathcode % SLOTS, i))], done, i + 1)
  {
    var x := items[done];
    if x.depth >= MAX_BFS_PATH_LEN - 1 {
      FitsSkips(hp, now, done, i);
    } else {
      ChildCoded(hp, x, b, Turn(x.pathcode % SLOTS, i));
      FitsQueues(hp, now, done, i, ChildEntry(hp, x, b, Turn(x.pathcode % SLOTS, i)));
    }
    hide FitsPart, MaxCuckooCount, Coded, Turn;
  }

  // A search that nobody disturbs: the bucket read is always the one of the same table.

  function ChildNodes(n: Node, start: nat, i: nat): seq<Node> {
    if i == 0 || |n.slots| >= MAX_BFS_PATH_LEN - 1 then [] else ChildNodes(n, start, i - 1) + [n.Child(Turn(start, i - 1))]
  }

  /** Queueing the children of the entry being expanded keeps everything in place. */
  lemma {:induction false} ChildrenExplored(t: Table, hp: nat, i1: nat, i2: nat, items: seq<BSlot>, nodes: seq<Node>, done: nat,
                                            i: nat)
    requires Explored(t, hp, i1, i2, items, nodes, done) && done < |nodes| == |items| && items[done].bucket < |t|
    requires Occupied(t[items[done].bucket], items[done].pathcode % SLOTS, i)
    ensures var x, n, start := items[done], nodes[done], items[done].pathcode % SLOTS;
            && Explored(t, hp, i1, i2, items + Children(hp, x, t[x.bucket], i), nodes + ChildNodes(n, start, i), done)
            && (|n.slots| < MAX_BFS_PATH_LEN - 1 ==>
                  forall k | 0 <= k < i :: n.Child(Turn(start, k)) in nodes + ChildNodes(n, start, i))
  {
    hide Explored, Turn, ChildEntry, Node.Child;
    ExploredEntry(t, hp, i1, i2, items, nodes, done);
    var x, n, start := items[done], nodes[done], items[done].pathcode % SLOTS;
    if i == 0 || |n.slots| >= MAX_BFS_PATH_LEN - 1 {
      assert items + [] == items && nodes + [] == nodes;
    } else {
      ChildrenExplored(t, hp, i1, i2, items, nodes, done, i - 1);
      var items', nodes' := items + Children(hp, x, t[x.bucket], i - 1), nodes + ChildNodes(n, start, i - 1);
      EnqueueChild(t, hp, i1, i2, items', nodes', done, Turn(start, i - 1));
      ChildrenAppend(hp, items, x, t[x.bucket], i - 1);
      assert nodes + ChildNodes(n, start, i) == nodes' + [n.Child(Turn(start, i - 1))];
    }
  }

  lemma ExploredEntry(t: Table, hp: nat, i1: nat, i2: nat, items: seq<BSlot>, nodes: seq<Node>, done: nat)
    requires Explored(t, hp, i1, i2, items, nodes, done) && done < |items|
    ensures done < |items| == |nodes| && Shaped(t, hp) && items[done].bucket < |t|
    ensures items[done].depth == |nodes[done].slots| < MAX_BFS_PATH_LEN
  {
    assert Stands(t, hp, i1, i2, items[done], nodes[done]);
  }

  lemma EntryFacts(hp: nat, items: seq<BSlot>, done: nat, t: Table, i1: nat, i2: nat, nodes: seq<Node>)
    requires Fits(hp, items, done) && done < |items| && Explored(t, hp, i1, i2, items, nodes, done)
    ensures |nodes| == |items| && items[done].bucket < HashSize(hp) == |t| && |t[items[done].bucket]| == SLOTS
  {
    FitsRoom(hp, items, done);
    ExploredEntry(t, hp, i1, i2, items, nodes, done);
    hide Fits, Explored, MaxCuckooCount, Decode;
  }

  /** A full bucket counts as expanded when its children are queued. */
  lemma EntryExpanded(t: Table, hp: nat, i1: nat, i2: nat, items: seq<BSlot>, nodes: seq<Node>, done: nat)
    requires Explored(t, hp, i1, i2, items, nodes, done) && done < |nodes| == |items| && items[done].bucket < |t|
    requires Occupied(t[items[done].bucket], items[done].pathcode % SLOTS, SLOTS)
    ensures var x, n := items[done], nodes[done];
            Explored(t, hp, i1, i2, items + Children(hp, x, t[x.bucket], SLOTS),
                     nodes + ChildNodes(n, x.pathcode % SLOTS, SLOTS), done + 1)
  {
    var x, n, start := items[done], nodes[done], items[done].pathcode % SLOTS;
    ChildrenExplored(t, hp, i1, i2, items, nodes, done, SLOTS);
    RoundIsFull(t[x.bucket], start);
    ExploredEntry(t, hp, i1, i2, items, nodes, done);
    hide Explored, Full, Children;
    var items', nodes' := items + Children(hp, x, t[x.bucket], SLOTS), nodes + ChildNodes(n, start, SLOTS);
    forall slot | 0 <= slot < SLOTS
      ensures |n.slots| < MAX_BFS_PATH_LEN - 1 ==> n.Child(slot) in nodes'
    {
      var k := CyclicCover(start, slot);
    }
    ExploredSizes(t, hp, i1, i2, items', nodes', done);
    Expanded(t, hp, i1, i2, items', nodes', done);
  }

  lemma ExploredSizes(t: Table, hp: nat, i1: nat, i2: nat, items: seq<BSlot>, nodes: seq<Node>, done: nat)
    requires Explored(t, hp, i1, i2, items, nodes, done)
    ensures |items| == |nodes| && done <= |nodes| && Shaped(t, hp)
  {
    hide Stands, Ordered, Full;
  }

  /** The queue: an array that is never reused, just long enough for a whole search. */
  class BQueue {
    const slots: array<BSlot>
    var first: nat
    var last: nat

    ghost predicate Valid()
      reads this
    {
      slots.Length == MaxCuckooCount(SLOTS) && first <= last <= slots.Length
    }

    /** Every entry ever queued. */
    function Items(): (s: seq<BSlot>)
      requires Valid()
      reads this, slots
      ensures |s| == last
    {
      slots[..last]
    }

    constructor ()
      ensures Valid() && fresh(slots) && first == 0 && last == 0
    {
      slots := new BSlot[MaxCuckooCount(SLOTS)](_ => BSlot(0, 0, -1));
      first, last := 0, 0;
    }

    lemma Bounds()
      requires Valid()
      ensures first <= |Items()| <= slots.Length && (IsEmpty() <==> first == |Items()|)
    {
    }

    method Enqueue(x: BSlot)
      requires Valid() && !IsFull()
      modifies this, slots
      ensures Valid() && first == old(first) && Items() == old(Items()) + [x]
    {
      slots[last] := x;
      last := last + 1;
    }

    method Dequeue() returns (x: BSlot)
      requires Valid() && !IsEmpty()
      modifies this
      ensures Valid() && Items() == old(Items()) && first == old(first) + 1 && x == Items()[old(first)]
    {
      x := slots[first];
      first := first + 1;
    }

    predicate IsEmpty()
      reads this
    {
      first == last
    }

    predicate IsFull()
      reads this
    {
      last == slots.Length
    }
  }

  /** A new queue with the two starting buckets; the code tells which one a path starts on. */
  method StartSearch(i1: nat, i2: nat) returns (q: BQueue)
    ensures fresh(q) && fresh(q.slots) && q.Valid() && q.first == 0
    ensures q.Items() == [BSlot(i1, 0, 0), BSlot(i2, 1, 0)]
  {
    q := new BQueue();
    QueueHasRoom();
    q.Enqueue(BSlot(i1, 0, 0));
    q.Enqueue(BSlot(i2, 1, 0));
  }

  /**
   * Expands the entry x that was just taken off the queue: looks at all slots of its bucket b, starting at an
   * arbitrary one; stops at a free slot, and otherwise queues the alternate bucket of every pair. Nothing is known of
   * the bucket: it may have been written since x was queued.
   */
  method Expand(q: BQueue, hp: nat, x: BSlot, b: Bucket) returns (free: Option<nat>)
    requires q.Valid() && 1 <= q.first <= |q.Items()| && x == q.Items()[q.first - 1] && |b| == SLOTS
    requires Fits(hp, q.Items(), q.first - 1)
    modifies q, q.slots
    ensures q.Valid() && q.first == old(q.first) && free == FreeFrom(b, x.pathcode % SLOTS, 0)
    ensures free.None? ==> q.Items() == old(q.Items()) + Children(hp, x, b, SLOTS) && Fits(hp, q.Items(), q.first)
  {
    hide Fits, FitsPart, Coded, ChildEntry, MaxCuckooCount;
    ghost var items, done := q.Items(), q.first - 1;
    var start := x.pathcode % SLOTS;
    FitsOpens(hp, items, done);
    assert items + Children(hp, x, b, 0) == items;
    var i := 0;
    while i < SLOTS
      invariant 0 <= i <= SLOTS && q.Valid() && q.first == done + 1
      invariant Occupied(b, start, i) && FreeFrom(b, start, 0) == FreeFrom(b, start, i)
      invariant q.Items() == items + Children(hp, x, b, i) && FitsPart(hp, q.Items(), done, i)
    {
      var slot := Turn(start, i);
      if b[slot].Empty? {
        return Some(slot);
      }
      ghost var now := q.Items();
      assert now[done] == x;
      FitsChild(hp, items, now, done, b, i);
      ChildrenAppend(hp, items, x, b, i);
      if x.depth < MAX_BFS_PATH_LEN - 1 {
        q.Enqueue(ChildEntry(hp, x, b, slot));
      }
      i := i + 1;
    }
    FitsCloses(hp, q.Items(), done);
    free := None;
  }
}
