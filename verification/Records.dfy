/** The array of records that a displacement path is stored in between its search and its execution. */
module Records {
  import opened Bits
  import opened Params
  import opened Hashing
  import opened Rows
  import opened PathCode
  import opened Paths
  import opened Frontier

  datatype HashValue = HashValue(hash: Word, partial: Partial)

  function HashedKey(k: Key): HashValue {
    HashValue(Hash(k), PartialKey(Hash(k)))
  }

  datatype CuckooRecord = CuckooRecord(bucket: nat, slot: nat, hv: HashValue)

  /** What the search guarantees of a path in every case: each stop is the alternate bucket of the one before. */
  ghost predicate Linked(path: seq<CuckooRecord>, depth: nat, hp: nat, i1: nat, i2: nat) {
    && depth < |path| == MAX_BFS_PATH_LEN
    && (path[0].bucket == i1 || path[0].bucket == i2)
    && (forall x | 0 <= x <= depth :: path[x].bucket < Pow2(hp) && path[x].slot < SLOTS)
    && (forall x | 0 <= x < depth ::
          && path[x].hv.partial == PartialKey(path[x].hv.hash)
          && path[x + 1].bucket == AltIndex(hp, path[x].hv.partial, path[x].bucket))
  }

  /** The record of stop i once its bucket b has been looked at: a free slot leaves no hash. */
  function Noted(path: seq<CuckooRecord>, i: nat, b: Bucket): (r: seq<CuckooRecord>)
    requires i < |path| && path[i].slot < |b|
    ensures |r| == |path|
  {
    match b[path[i].slot]
    case Empty => path
    case Live(_, k, _) => path[i := path[i].(hv := HashedKey(k))]
  }

  /** The bucket of stop i is the alternate bucket of the stop before. */
  function Stepped(hp: nat, path: seq<CuckooRecord>, i: nat): (r: seq<CuckooRecord>)
    requires 1 <= i < |path|
    ensures |r| == |path|
  {
    path[i := path[i].(bucket := AltIndex(hp, path[i - 1].hv.partial, path[i - 1].bucket))]
  }

  lemma SteppedIs(hp: nat, path: seq<CuckooRecord>, path': seq<CuckooRecord>, i: nat)
    requires 1 <= i < |path| && path' == path[i := path[i].(bucket := AltIndex(hp, path[i - 1].hv.partial, path[i - 1].bucket))]
    ensures path' == Stepped(hp, path, i)
  {
  }

  /** Linked as far as stop i; the slots are known up to the depth of the path. */
  ghost predicate LinkedUpTo(path: seq<CuckooRecord>, depth: nat, hp: nat, i1: nat, i2: nat, i: nat) {
    && depth < |path| == MAX_BFS_PATH_LEN && (forall x | 0 <= x <= depth :: path[x].slot < SLOTS)
    && i <= depth && Linked(path, i, hp, i1, i2)
  }

  lemma LinkedReached(path: seq<CuckooRecord>, b: Bucket, depth: nat, hp: nat, i1: nat, i2: nat, i: nat)
    requires LinkedUpTo(path, depth, hp, i1, i2, i) && |b| == SLOTS
    ensures Linked(Noted(path, i, b), i, hp, i1, i2)
  {
    hide AltIndex, HashedKey, PartialKey;
  }

  /** Looking at stop i, whatever pair is there now, and going on to its alternate bucket keeps the path linked. */
  lemma LinkedNext(path: seq<CuckooRecord>, b: Bucket, depth: nat, hp: nat, i1: nat, i2: nat, i: nat)
    requires LinkedUpTo(path, depth, hp, i1, i2, i) && |b| == SLOTS && i < depth && b[path[i].slot].Live?
    ensures LinkedUpTo(Stepped(hp, Noted(path, i, b), i + 1), depth, hp, i1, i2, i + 1)
  {
    var p := Noted(path, i, b);
    var r := Stepped(hp, p, i + 1);
    IndexBound(hp, 0, p[i].hv.partial, p[i].bucket);
    hide AltIndex, PartialKey;
    LinkedExtends(path, r, depth, hp, i1, i2, i);
  }

  lemma LinkedExtends(path: seq<CuckooRecord>, r: seq<CuckooRecord>, depth: nat, hp: nat, i1: nat, i2: nat, i: nat)
    requires LinkedUpTo(path, depth, hp, i1, i2, i) && i < depth && |r| == |path|
    requires forall x | 0 <= x < |path| :: r[x].slot == path[x].slot && (x <= i ==> r[x].bucket == path[x].bucket)
    requires forall x | 0 <= x < i :: r[x].hv == path[x].hv
    requires r[i].hv.partial == PartialKey(r[i].hv.hash) && r[i + 1].bucket == AltIndex(hp, r[i].hv.partial, r[i].bucket) < Pow2(hp)
    ensures LinkedUpTo(r, depth, hp, i1, i2, i + 1)
  {
    hide AltIndex, PartialKey;
    forall x | 0 <= x < i
      ensures r[x + 1].bucket == AltIndex(hp, r[x].hv.partial, r[x].bucket)
    {
      assert path[x + 1].bucket == AltIndex(hp, path[x].hv.partial, path[x].bucket);
    }
  }

  /** The records describe stops 0..n of route r through table t. */
  ghost predicate Recorded(path: seq<CuckooRecord>, n: int, r: Route, t: Table, hp: nat) {
    && r.Leads(t, hp) && n < |r.buckets| <= |path| == MAX_BFS_PATH_LEN
    && (forall x | 0 <= x <= n :: path[x].bucket == r.buckets[x])
    && (forall x | 0 <= x < |r.buckets| :: path[x].slot == r.slots[x])
    && (forall x | 0 <= x <= n && x < |r.buckets| - 1 :: path[x].hv == HashedKey(t[r.buckets[x]][r.slots[x]].key))
  }

  /** The records describe all of a route that can be carried out if nobody interferes. */
  ghost predicate Undisturbed(path: seq<CuckooRecord>, depth: nat, r: Route, t: Table, hp: nat) {
    && |r.buckets| == |r.slots| == depth + 1
    && Recorded(path, depth, r, t, hp) && r.VisitsOnce() && r.CarriedTo(t, t, depth)
  }

  /** Between two displacements: the pairs from stop d on have moved, and if nobody interfered the rest can move too. */
  ghost predicate Carrying(path: seq<CuckooRecord>, depth: nat, r: Route, before: Table, now: Table, hp: nat, d: nat) {
    Undisturbed(path, depth, r, before, hp) && d <= depth && r.CarriedTo(before, now, d)
  }

  lemma CarryingStarts(path: seq<CuckooRecord>, depth: nat, r: Route, t: Table, hp: nat)
    ensures Undisturbed(path, depth, r, t, hp) ==> Carrying(path, depth, r, t, t, hp, depth)
  {
    hide Recorded, Route.VisitsOnce, Route.CarriedTo;
  }

  lemma LinkedFirst(path: seq<CuckooRecord>, depth: nat, hp: nat, i1: nat, i2: nat)
    requires Linked(path, depth, hp, i1, i2)
    ensures depth < |path| == MAX_BFS_PATH_LEN && path[0].bucket < HashSize(hp) && path[0].slot < SLOTS
    ensures path[0].bucket == i1 || path[0].bucket == i2
  {
  }

  /** When the whole route has been carried out, the slot at its start is free. */
  lemma CarryingEnds(path: seq<CuckooRecord>, depth: nat, r: Route, before: Table, now: Table, hp: nat)
    requires Carrying(path, depth, r, before, now, hp, 0)
    ensures |path| > 0 && path[0].bucket < |now| && path[0].slot < |now[path[0].bucket]|
    ensures now[path[0].bucket][path[0].slot].Empty?
  {
  }

  lemma LinkedStep(path: seq<CuckooRecord>, depth: nat, hp: nat, i1: nat, i2: nat, d: nat)
    requires Linked(path, depth, hp, i1, i2) && 1 <= d <= depth
    ensures |path| == MAX_BFS_PATH_LEN && path[d - 1].bucket < HashSize(hp) && path[d].bucket < HashSize(hp)
    ensures path[d - 1].slot < SLOTS && path[d].slot < SLOTS
    ensures d == 1 ==> path[0].bucket == i1 || path[0].bucket == i2
    ensures path[d - 1].hv.partial == PartialKey(path[d - 1].hv.hash)
    ensures path[d].bucket == AltIndex(hp, path[d - 1].hv.partial, path[d - 1].bucket)
  {
    hide AltIndex, PartialKey;
    assert path[(d - 1) + 1] == path[d];
  }

  /** Whether the pair of one record may still be moved to the slot of the next, as the displacement checks it. */
  ghost predicate MayMove(t: Table, from: CuckooRecord, to: CuckooRecord)
    requires from.bucket < |t| && to.bucket < |t| && from.slot < |t[from.bucket]| && to.slot < |t[to.bucket]|
  {
    && t[to.bucket][to.slot].Empty?
    && t[from.bucket][from.slot].Live? && Hash(t[from.bucket][from.slot].key) == from.hv.hash
  }

  /** Undisturbed, the next displacement passes its checks, and carries the route one stop further back. */
  lemma CarryingStep(path: seq<CuckooRecord>, depth: nat, r: Route, before: Table, now: Table, hp: nat,
                     m: map<Key, Value>, d: nat)
    requires Carrying(path, depth, r, before, now, hp, d) && d >= 1 && Represents(now, hp, m)
    ensures var f, fs, g, gs := path[d - 1].bucket, path[d - 1].slot, path[d].bucket, path[d].slot;
            && LiveAt(now, f, fs) && g < |now| && gs < |now[g]| && MayMove(now, path[d - 1], path[d])
            && Carrying(path, depth, r, before, Displaced(now, f, fs, g, gs), hp, d - 1)
  {
    assert r.buckets[d - 1] == path[d - 1].bucket && r.buckets[d] == path[d].bucket;
    CarryOneBack(r, before, now, hp, m, d);
    hide Route.Leads, Route.VisitsOnce, Route.CarriedTo, Represents, PartialKey;
  }

  /** A recorded route with correct partial keys is linked. */
  lemma RecordedLinked(path: seq<CuckooRecord>, depth: nat, r: Route, t: Table, hp: nat, i1: nat, i2: nat)
    requires Undisturbed(path, depth, r, t, hp) && Placed(t, hp)
    requires r.buckets[0] == i1 || r.buckets[0] == i2
    ensures Linked(path, depth, hp, i1, i2)
  {
    hide AltIndex, PartialKey;
    forall x | 0 <= x < depth
      ensures path[x].hv.partial == PartialKey(path[x].hv.hash)
      ensures path[x + 1].bucket == AltIndex(hp, path[x].hv.partial, path[x].bucket)
    {
      assert LiveAt(t, r.buckets[x], r.slots[x]);
      assert t[r.buckets[x]][r.slots[x]].partial == PartialOf(t[r.buckets[x]][r.slots[x]].key);
    }
  }

  /** The alternate bucket computed from a record is the next stop of the route. */
  lemma NextStop(path: seq<CuckooRecord>, i: nat, r: Route, t: Table, hp: nat)
    requires 1 <= i < |r.buckets| && Recorded(path, i - 1, r, t, hp) && Placed(t, hp)
    ensures AltIndex(hp, path[i - 1].hv.partial, path[i - 1].bucket) == r.buckets[i]
  {
    hide AltIndex, PartialKey;
    var f, fs := r.buckets[i - 1], r.slots[i - 1];
    assert LiveAt(t, f, fs);
    assert t[f][fs].partial == PartialOf(t[f][fs].key);
    assert r.buckets[(i - 1) + 1] == AltIndex(hp, t[f][fs].partial, f);
  }

  lemma StopInTable(r: Route, t: Table, hp: nat, i: nat)
    requires r.Leads(t, hp) && i < |r.buckets|
    ensures Shaped(t, hp) && |t| == HashSize(hp) && r.buckets[i] < |t| && |t[r.buckets[i]]| == SLOTS && r.slots[i] < SLOTS
    ensures i < |r.buckets| - 1 ==> t[r.buckets[i]][r.slots[i]].Live?
  {
    assert i < |r.buckets| - 1 ==> LiveAt(t, r.buckets[i], r.slots[i]);
  }

  /** A route that ends in a free slot of t. */
  ghost predicate Walkable(r: Route, t: Table, hp: nat) {
    r.Leads(t, hp) && Placed(t, hp) && |r.buckets| <= MAX_BFS_PATH_LEN && r.CarriedTo(t, t, |r.buckets| - 1)
  }

  /** The records are complete up to stop i, of which the bucket and the slot are known but the hash is not. */
  ghost predicate Reading(path: seq<CuckooRecord>, i: nat, r: Route, t: Table, hp: nat) {
    && Walkable(r, t, hp) && i < |r.buckets| && |path| == MAX_BFS_PATH_LEN
    && path[i].bucket == r.buckets[i]
    && (forall x | 0 <= x < |r.buckets| :: path[x].slot == r.slots[x])
    && (i > 0 ==> Recorded(path, i - 1, r, t, hp))
  }

  lemma ReadingFacts(path: seq<CuckooRecord>, i: nat, r: Route, t: Table, hp: nat)
    requires Reading(path, i, r, t, hp)
    ensures |r.buckets| <= MAX_BFS_PATH_LEN && i < |path| && |t| == HashSize(hp) && path[i].bucket < |t|
    ensures |t[path[i].bucket]| == SLOTS && path[i].slot < SLOTS
  {
    StopInTable(r, t, hp, i);
  }

  /** Reading one more record: the slot is occupied at all stops but the last, where no hash is needed. */
  lemma RecordedNext(path: seq<CuckooRecord>, path': seq<CuckooRecord>, i: nat, r: Route, t: Table, hp: nat)
    requires Reading(path, i, r, t, hp)
    requires path[i].bucket < |t| && path[i].slot < |t[path[i].bucket]|
    requires path' == Noted(path, i, t[path[i].bucket])
    ensures Recorded(path', i, r, t, hp)
    ensures t[path[i].bucket][path[i].slot].Empty? ==> i == |r.buckets| - 1
  {
    StopInTable(r, t, hp, i);
    hide Route.Leads, HashedKey;
  }

  /** The next stop is computed from the record of the one before. */
  lemma ReadingNext(path: seq<CuckooRecord>, path': seq<CuckooRecord>, i: nat, r: Route, t: Table, hp: nat)
    requires Walkable(r, t, hp) && 1 <= i < |r.buckets| && Recorded(path, i - 1, r, t, hp)
    requires i < |path| && path' == Stepped(hp, path, i)
    ensures Reading(path', i, r, t, hp)
  {
    NextStop(path, i, r, t, hp);
    hide Route.Leads, HashedKey, Placed;
  }

  lemma ReadingStarts(path: seq<CuckooRecord>, r: Route, t: Table, hp: nat)
    requires Walkable(r, t, hp) && |path| == MAX_BFS_PATH_LEN && path[0].bucket == r.buckets[0]
    requires forall x | 0 <= x < |r.buckets| :: path[x].slot == r.slots[x]
    ensures Reading(path, 0, r, t, hp)
  {
  }

  /** The route of what the search returned. */
  lemma RouteFound(t: Table, hp: nat, i1: nat, i2: nat, x: BSlot, n: Node, free: nat) returns (r: Route)
    requires ShortestFound(t, hp, i1, i2, x, n, free) && Placed(t, hp)
    ensures n.root <= 1 && 0 <= x.depth < MAX_BFS_PATH_LEN && |r.buckets| == |r.slots| == x.depth + 1
    ensures Walkable(r, t, hp) && r.VisitsOnce()
    ensures r.buckets[0] == Root(i1, i2, n.root) && r.slots == n.slots + [free]
    ensures Decode(SLOTS, x.pathcode, x.depth + 1) == (n.root, r.slots)
  {
    hide Placed, NoneShorter, Follow, Encode16, Decode, Route.Leads, Route.VisitsOnce;
    var b := Root(i1, i2, n.root);
    ShortestRoute(t, hp, b, n.slots, free);
    r := RouteOf(t, hp, b, n.slots, free);
    PathDecodes(n.root, n.slots + [free]);
  }

  /** With so few slots per bucket a path survives its packing. */
  lemma PathDecodes(root: nat, slots: seq<nat>)
    requires root <= 1 && SlotsBelow(SLOTS, slots) && |slots| <= MAX_BFS_PATH_LEN
    ensures Decode(SLOTS, Encode16(SLOTS, root, slots), |slots|) == (root, slots)
  {
    hide ConstPow, Encode, Encode16, Decode;
    EightSlotsFit(SLOTS);
    NeverWraps(SLOTS, root, slots);
    DecodeEncode(SLOTS, root, slots);
  }

  /**
   * The outcome of the search for a path: no bucket with a free slot within reach, or the records of a route to one,
   * starting from one of the two buckets, such that no shorter path leads to a bucket with a free slot.
   */
  ghost predicate PathFound(path: seq<CuckooRecord>, depth: int, r: Route, t: Table, hp: nat, i1: nat, i2: nat) {
    if depth == -1 then
      NothingFound(t, hp, i1, i2)
    else
      && 0 <= depth < MAX_BFS_PATH_LEN && Undisturbed(path, depth, r, t, hp)
      && (r.buckets[0] == i1 || r.buckets[0] == i2) && !NothingFound(t, hp, i1, i2)
      && Shaped(t, hp) && i1 < |t| && i2 < |t| && NoneShorter(t, hp, i1, depth) && NoneShorter(t, hp, i2, depth)
  }

  lemma PathIsFound(path: seq<CuckooRecord>, r: Route, t: Table, hp: nat, i1: nat, i2: nat, x: BSlot, n: Node, free: nat)
    requires ShortestFound(t, hp, i1, i2, x, n, free)
    requires Walkable(r, t, hp) && r.VisitsOnce() && n.root <= 1 && r.buckets[0] == Root(i1, i2, n.root)
    requires 0 <= x.depth < MAX_BFS_PATH_LEN && |r.buckets| == x.depth + 1 && Recorded(path, x.depth, r, t, hp)
    ensures PathFound(path, x.depth, r, t, hp, i1, i2)
  {
    FoundRefutesFailure(t, hp, i1, i2, x, n, free);
    hide NoneShorter, NothingFound, Follow, Encode16, Route.VisitsOnce, Recorded;
  }

  lemma PathFoundFacts(path: seq<CuckooRecord>, depth: int, r: Route, t: Table, hp: nat, i1: nat, i2: nat)
    requires PathFound(path, depth, r, t, hp, i1, i2) && Placed(t, hp)
    ensures depth >= -1 && (depth == -1 <==> NothingFound(t, hp, i1, i2))
    ensures depth >= 0 ==>
              depth < MAX_BFS_PATH_LEN && Undisturbed(path, depth, r, t, hp) && Linked(path, depth, hp, i1, i2)
  {
    if depth >= 0 {
      RecordedLinked(path, depth, r, t, hp, i1, i2);
    }
    hide Linked, NothingFound, NoneShorter, Undisturbed, Placed;
  }

  lemma DecodeStep(code: nat, n: nat, root: nat, slots: seq<nat>)
    requires Decode(SLOTS, code, n + 1) == (root, slots)
    ensures |slots| == n + 1 && slots[n] == code % SLOTS
    ensures Decode(SLOTS, code / SLOTS, n) == (root, slots[..n])
  {
    var q := Decode(SLOTS, code / SLOTS, n);
    assert slots == q.1 + [code % SLOTS];
  }

  lemma DecodeNone(code: nat, root: nat, slots: seq<nat>)
    requires Decode(SLOTS, code, 0) == (root, slots)
    ensures code == root
  {
  }

  /** Takes the slots off a path code, from the end of the path to its beginning; what is left is the root. */
  method DecodePath(path: array<CuckooRecord>, depth: nat, code: nat, ghost root: nat, ghost slots: seq<nat>)
    returns (rest: nat)
    requires path.Length == MAX_BFS_PATH_LEN && depth < MAX_BFS_PATH_LEN
    requires Decode(SLOTS, code, depth + 1) == (root, slots)
    modifies path
    ensures rest == root && |slots| == depth + 1
    ensures forall x | 0 <= x <= depth :: path[x].slot == slots[x]
  {
    hide Decode;
    rest := code;
    assert slots[..depth + 1] == slots;
    var i := depth as int;
    while i >= 0
      invariant -1 <= i <= depth
      invariant Decode(SLOTS, rest, i + 1) == (root, slots[..i + 1])
      invariant forall x | i < x <= depth :: path[x].slot == slots[x]
    {
      DecodeStep(rest, i, root, slots[..i + 1]);
      assert slots[..i + 1][..i] == slots[..i];
      path[i] := path[i].(slot := rest % SLOTS);
      rest := rest / SLOTS;
      i := i - 1;
    }
    DecodeNone(rest, root, slots[..0]);
  }
}
