/**
 * The search for a displacement path as a sequence of looks at single buckets. Between two looks no lock is held, so
 * nothing is known of the bucket that the next look finds.
 */
module PathSearch {
  import opened Params
  import opened Hashing
  import opened Rows
  import opened PathCode
  import opened Paths
  import opened Frontier
  import opened Records

  datatype Search =
    | Queued(items: seq<BSlot>, first: nat)                   // breadth-first, about to look at the next entry
    | Traced(path: seq<CuckooRecord>, depth: nat, i: nat)     // a path is decoded, about to look at stop i
    | Found(path: seq<CuckooRecord>, depth: nat)

  function Start(i1: nat, i2: nat): Search {
    Queued([BSlot(i1, 0, 0), BSlot(i2, 1, 0)], 0)
  }

  /** There is another bucket to look at. */
  predicate Looking(s: Search) {
    match s
    case Queued(items, first) => first < |items| && 0 <= items[first].depth < MAX_BFS_PATH_LEN
    case Traced(path, depth, i) => i <= depth < |path| && path[i].slot < SLOTS
    case Found(_, _) => false
  }

  predicate Exhausted(s: Search) {
    s.Queued? && s.first == |s.items|
  }

  function LooksAt(s: Search): nat
    requires Looking(s)
  {
    if s.Queued? then s.items[s.first].bucket else s.path[s.i].bucket
  }

  /** The path of a code: its slots, and the bucket it starts on. What the other fields hold does not matter. */
  function Unpacked(code: nat, depth: nat, i1: nat, i2: nat): (path: seq<CuckooRecord>)
    requires depth < MAX_BFS_PATH_LEN
    ensures |path| == MAX_BFS_PATH_LEN
  {
    var (root, slots) := Decode(SLOTS, code, depth + 1);
    seq(MAX_BFS_PATH_LEN, x requires 0 <= x =>
      CuckooRecord(if root == 0 then i1 else i2, if x <= depth then slots[x] else 0, HashValue(0, 0)))
  }

  /** What the search makes of the bucket b that it has locked. */
  function Next(hp: nat, i1: nat, i2: nat, s: Search, b: Bucket): Search
    requires Looking(s) && |b| == SLOTS
  {
    match s
    case Queued(items, first) =>
      var x := items[first];
      (match FreeFrom(b, x.pathcode % SLOTS, 0)
       case Some(slot) => Traced(Unpacked(Packed(x.pathcode, slot), x.depth, i1, i2), x.depth, 0)
       case None => Queued(items + Children(hp, x, b, SLOTS), first + 1))
    case Traced(path, depth, i) =>
      if b[path[i].slot].Empty? then Found(path, i)
      else if i == depth then Found(Noted(path, i, b), depth)
      else Traced(Stepped(hp, Noted(path, i, b), i + 1), depth, i + 1)
  }

  /** What holds of the search whatever it has been shown. */
  ghost predicate SearchOk(hp: nat, i1: nat, i2: nat, s: Search) {
    match s
    case Queued(items, first) => Fits(hp, items, first)
    case Traced(path, depth, i) =>
      i <= depth && LinkedUpTo(path, depth, hp, i1, i2, i)
    case Found(path, depth) => Linked(path, depth, hp, i1, i2)
  }

  lemma StartOk(hp: nat, i1: nat, i2: nat)
    requires i1 < HashSize(hp) && i2 < HashSize(hp)
    ensures SearchOk(hp, i1, i2, Start(i1, i2))
  {
    FitsStarts(hp, i1, i2);
  }

  /** A search that is neither exhausted nor done can look at another bucket, which exists. */
  lemma CanLook(hp: nat, i1: nat, i2: nat, s: Search)
    requires SearchOk(hp, i1, i2, s) && !Exhausted(s) && !s.Found?
    ensures Looking(s) && LooksAt(s) < HashSize(hp)
  {
    hide MaxCuckooCount, Pending, Decode, AltIndex, PartialKey;
  }

  /** The queue never overflows, whatever the buckets looked at contain. */
  lemma NeverOverflows(hp: nat, i1: nat, i2: nat, s: Search)
    requires SearchOk(hp, i1, i2, s) && s.Queued?
    ensures s.first <= |s.items| <= MaxCuckooCount(SLOTS)
  {
    FitsRoom(hp, s.items, s.first);
    hide MaxCuckooCount, Fits;
  }

  /** A free slot ends the first phase with a path whose root is 0 or 1, so that it starts on one of the two buckets. */
  lemma UnpackedLinked(hp: nat, i1: nat, i2: nat, x: BSlot, slot: nat)
    requires Coded(hp, x) && slot < SLOTS && i1 < HashSize(hp) && i2 < HashSize(hp)
    ensures Decode(SLOTS, Packed(x.pathcode, slot), x.depth + 1).0 <= 1
    ensures LinkedUpTo(Unpacked(Packed(x.pathcode, slot), x.depth, i1, i2), x.depth, hp, i1, i2, 0)
  {
    PackedDecodes(x.pathcode, x.depth, slot);
    hide Packed, Decode, AltIndex, PartialKey;
  }

  /** Whatever bucket it is shown, the search stays in order. */
  lemma NextOk(hp: nat, i1: nat, i2: nat, s: Search, b: Bucket)
    requires SearchOk(hp, i1, i2, s) && Looking(s) && |b| == SLOTS && i1 < HashSize(hp) && i2 < HashSize(hp)
    ensures SearchOk(hp, i1, i2, Next(hp, i1, i2, s, b))
  {
    hide Fits, FitsPart, Coded, LinkedUpTo, Linked, Children, FreeFrom, Unpacked, MaxCuckooCount, Packed;
    match s
    case Queued(items, first) =>
      FitsRoom(hp, items, first);
      var start := items[first].pathcode % SLOTS;
      if FreeFrom(b, start, 0).Some? {
        UnpackedLinked(hp, i1, i2, items[first], FreeFrom(b, start, 0).value);
      } else {
        ExpansionFits(hp, items, first, b, SLOTS);
        FitsCloses(hp, items + Children(hp, items[first], b, SLOTS), first);
      }
    case Traced(path, depth, i) =>
      if b[path[i].slot].Empty? || i == depth {
        LinkedReached(path, b, depth, hp, i1, i2, i);
      } else {
        LinkedNext(path, b, depth, hp, i1, i2, i);
      }
  }

  // The search halts.

  /** An upper bound for the number of buckets still to be looked at. */
  function Looks(s: Search): int {
    match s
    case Queued(_, first) => MaxCuckooCount(SLOTS) - first + MAX_BFS_PATH_LEN
    case Traced(_, _, i) => MAX_BFS_PATH_LEN - i
    case Found(_, _) => 0
  }

  lemma NextIsCloser(hp: nat, i1: nat, i2: nat, s: Search, b: Bucket)
    requires SearchOk(hp, i1, i2, s) && Looking(s) && |b| == SLOTS
    ensures 0 <= Looks(Next(hp, i1, i2, s, b)) < Looks(s)
  {
    if s.Queued? {
      FitsRoom(hp, s.items, s.first);
    }
    hide Fits, MaxCuckooCount, FreeFrom, Children, Unpacked, Linked;
  }

  /** A search from its start, and the buckets it was shown one after another. */
  ghost predicate Course(hp: nat, i1: nat, i2: nat, ss: seq<Search>, bs: seq<Bucket>) {
    && |ss| == |bs| + 1 && ss[0] == Start(i1, i2)
    && forall x | 0 <= x < |bs| :: Looking(ss[x]) && |bs[x]| == SLOTS && ss[x + 1] == Next(hp, i1, i2, ss[x], bs[x])
  }

  /**
   * Whatever other threads do to the buckets between its looks, a search halts after at most MAX_CUCKOO_COUNT + 5 looks,
   * never overflows its queue, and what it returns is a path of buckets linked by their alternates.
   */
  lemma {:induction false} SearchHalts(hp: nat, i1: nat, i2: nat, ss: seq<Search>, bs: seq<Bucket>)
    requires Course(hp, i1, i2, ss, bs) && i1 < HashSize(hp) && i2 < HashSize(hp)
    ensures |bs| <= MaxCuckooCount(SLOTS) + MAX_BFS_PATH_LEN - Looks(ss[|bs|]) && Looks(ss[|bs|]) >= 0
    ensures SearchOk(hp, i1, i2, ss[|bs|])
    ensures ss[|bs|].Queued? ==> |ss[|bs|].items| <= MaxCuckooCount(SLOTS)
    ensures !Looking(ss[|bs|]) ==>
              Exhausted(ss[|bs|]) || (ss[|bs|].Found? && Linked(ss[|bs|].path, ss[|bs|].depth, hp, i1, i2))
  {
    hide Looking, Next, Looks, MaxCuckooCount, Linked, SearchOk;
    var n := |bs|;
    if n == 0 {
      StartOk(hp, i1, i2);
      StartLooks(i1, i2);
    } else {
      SearchHalts(hp, i1, i2, ss[..n], bs[..n - 1]);
      NextOk(hp, i1, i2, ss[n - 1], bs[n - 1]);
      NextIsCloser(hp, i1, i2, ss[n - 1], bs[n - 1]);
    }
    HaltedIs(hp, i1, i2, ss[n]);
  }

  lemma StartLooks(i1: nat, i2: nat)
    ensures Looks(Start(i1, i2)) == MaxCuckooCount(SLOTS) + MAX_BFS_PATH_LEN
  {
  }

  lemma HaltedIs(hp: nat, i1: nat, i2: nat, s: Search)
    requires SearchOk(hp, i1, i2, s)
    ensures s.Queued? ==> |s.items| <= MaxCuckooCount(SLOTS)
    ensures !Looking(s) ==> Exhausted(s) || (s.Found? && Linked(s.path, s.depth, hp, i1, i2))
  {
    hide Looking, Linked, MaxCuckooCount;
    if s.Queued? {
      NeverOverflows(hp, i1, i2, s);
    }
    if !Looking(s) && !Exhausted(s) && !s.Found? {
      CanLook(hp, i1, i2, s);
    }
  }

  // A search that nobody disturbs.

  /** Every bucket the search has looked at was the one of table t; behind its state there are nodes or a route. */
  ghost predicate Undistracted(t: Table, hp: nat, i1: nat, i2: nat, s: Search, nodes: seq<Node>, r: Route) {
    match s
    case Queued(items, first) => Explored(t, hp, i1, i2, items, nodes, first)
    case Traced(path, depth, i) =>
      Reading(path, i, r, t, hp) && r.VisitsOnce() && |r.buckets| == depth + 1 && !NothingFound(t, hp, i1, i2)
    case Found(path, depth) => Undisturbed(path, depth, r, t, hp) && !NothingFound(t, hp, i1, i2)
  }

  lemma UndistractedStart(t: Table, hp: nat, i1: nat, i2: nat) returns (nodes: seq<Node>, r: Route)
    requires Shaped(t, hp) && i1 < |t| && i2 < |t|
    ensures Undistracted(t, hp, i1, i2, Start(i1, i2), nodes, r)
  {
    nodes, r := [Node(0, []), Node(1, [])], Route([], []);
    RootsExplored(t, hp, i1, i2);
  }

  lemma UndistractedNext(t: Table, hp: nat, i1: nat, i2: nat, s: Search, nodes: seq<Node>, r: Route)
    returns (nodes': seq<Node>, r': Route)
    requires Undistracted(t, hp, i1, i2, s, nodes, r) && Looking(s) && Placed(t, hp)
    requires LooksAt(s) < |t| && |t[LooksAt(s)]| == SLOTS
    ensures Undistracted(t, hp, i1, i2, Next(hp, i1, i2, s, t[LooksAt(s)]), nodes', r')
  {
    hide *;
    UndistractedIs(t, hp, i1, i2, s, nodes, r);
    NextIs(hp, i1, i2, s, t[LooksAt(s)]);
    nodes', r' := nodes, r;
    match s {
      case Queued(items, first) =>
        var x, b := items[first], t[LooksAt(s)];
        ExploredSizes(t, hp, i1, i2, items, nodes, first);
        match FreeFrom(b, x.pathcode % SLOTS, 0) {
          case None =>
            EntryExpanded(t, hp, i1, i2, items, nodes, first);
            nodes' := nodes + ChildNodes(nodes[first], x.pathcode % SLOTS, SLOTS);
          case Some(slot) =>
            SearchSucceeds(t, hp, i1, i2, items, nodes, first, slot);
            r' := TraceStarts(t, hp, i1, i2, BSlot(x.bucket, Packed(x.pathcode, slot), x.depth), nodes[first], slot);
        }
      case Traced(path, depth, i) =>
        ReadingFacts(path, i, r, t, hp);
        TraceNext(t, hp, path, depth, i, r);
    }
    UndistractedIf(t, hp, i1, i2, Next(hp, i1, i2, s, t[LooksAt(s)]), nodes', r');
  }

  lemma UndistractedIs(t: Table, hp: nat, i1: nat, i2: nat, s: Search, nodes: seq<Node>, r: Route)
    requires Undistracted(t, hp, i1, i2, s, nodes, r) && Looking(s)
    ensures s.Queued? ==> Explored(t, hp, i1, i2, s.items, nodes, s.first) && LooksAt(s) == s.items[s.first].bucket
    ensures s.Queued? ==> s.first < |s.items| && 0 <= s.items[s.first].depth < MAX_BFS_PATH_LEN
    ensures s.Traced? ==>
              && Reading(s.path, s.i, r, t, hp) && r.VisitsOnce() && |r.buckets| == s.depth + 1 && s.i <= s.depth < |s.path|
              && !NothingFound(t, hp, i1, i2) && LooksAt(s) == s.path[s.i].bucket && s.path[s.i].slot < SLOTS
    ensures !s.Found?
  {
    hide Explored, Reading, Route.VisitsOnce, NothingFound;
  }

  lemma UndistractedIf(t: Table, hp: nat, i1: nat, i2: nat, s: Search, nodes: seq<Node>, r: Route)
    requires s.Queued? ==> Explored(t, hp, i1, i2, s.items, nodes, s.first)
    requires s.Traced? ==>
               && Reading(s.path, s.i, r, t, hp) && r.VisitsOnce() && |r.buckets| == s.depth + 1 && !NothingFound(t, hp, i1, i2)
    requires s.Found? ==> Undisturbed(s.path, s.depth, r, t, hp) && !NothingFound(t, hp, i1, i2)
    ensures Undistracted(t, hp, i1, i2, s, nodes, r)
  {
    hide Explored, Reading, Undisturbed, Route.VisitsOnce, NothingFound;
  }

  lemma NextIs(hp: nat, i1: nat, i2: nat, s: Search, b: Bucket)
    requires Looking(s) && |b| == SLOTS
    ensures s.Queued? ==>
              var x := s.items[s.first];
              && Occupied(b, x.pathcode % SLOTS, 0)
              && match FreeFrom(b, x.pathcode % SLOTS, 0)
                 case None =>
                   && Occupied(b, x.pathcode % SLOTS, SLOTS)
                   && Next(hp, i1, i2, s, b) == Queued(s.items + Children(hp, x, b, SLOTS), s.first + 1)
                 case Some(slot) =>
                   && slot < SLOTS && b[slot].Empty?
                   && Next(hp, i1, i2, s, b) == Traced(Unpacked(Packed(x.pathcode, slot), x.depth, i1, i2), x.depth, 0)
    ensures s.Traced? ==>
              Next(hp, i1, i2, s, b) == if b[s.path[s.i].slot].Empty? then Found(s.path, s.i)
                                        else if s.i == s.depth then Found(Noted(s.path, s.i, b), s.depth)
                                        else Traced(Stepped(hp, Noted(s.path, s.i, b), s.i + 1), s.depth, s.i + 1)
  {
    hide Children, Unpacked, Packed, FreeFrom, Noted, Stepped, Turn;
  }

  /** The records of a shortest path that has just been found start out with its slots and its first bucket. */
  lemma TraceStarts(t: Table, hp: nat, i1: nat, i2: nat, x: BSlot, n: Node, free: nat) returns (r: Route)
    requires ShortestFound(t, hp, i1, i2, x, n, free) && Placed(t, hp) && 0 <= x.depth < MAX_BFS_PATH_LEN
    ensures Reading(Unpacked(x.pathcode, x.depth, i1, i2), 0, r, t, hp) && r.VisitsOnce()
    ensures |r.buckets| == x.depth + 1 && !NothingFound(t, hp, i1, i2)
  {
    hide ShortestFound, NothingFound, Placed, Walkable, Route.VisitsOnce, Reading, Decode;
    FoundRefutesFailure(t, hp, i1, i2, x, n, free);
    r := RouteFound(t, hp, i1, i2, x, n, free);
    ReadingStarts(Unpacked(x.pathcode, x.depth, i1, i2), r, t, hp);
  }

  lemma TraceNext(t: Table, hp: nat, path: seq<CuckooRecord>, depth: nat, i: nat, r: Route)
    requires Reading(path, i, r, t, hp) && r.VisitsOnce() && |r.buckets| == depth + 1 && i <= depth < |path|
    requires path[i].bucket < |t| && |t[path[i].bucket]| == SLOTS && path[i].slot < SLOTS
    ensures var b := t[path[i].bucket];
            if b[path[i].slot].Empty? then Undisturbed(path, i, r, t, hp)
            else if i == depth then Undisturbed(Noted(path, i, b), depth, r, t, hp)
            else Reading(Stepped(hp, Noted(path, i, b), i + 1), i + 1, r, t, hp)
  {
    var b := t[path[i].bucket];
    RecordedNext(path, Noted(path, i, b), i, r, t, hp);
    if b[path[i].slot].Live? && i < depth {
      ReadingNext(Noted(path, i, b), Stepped(hp, Noted(path, i, b), i + 1), i + 1, r, t, hp);
    }
    hide Recorded, Route.Leads, Route.VisitsOnce, Route.CarriedTo, Placed, Stepped;
  }

  /** An undisturbed search that is exhausted has looked everywhere within reach. */
  lemma UndistractedFails(t: Table, hp: nat, i1: nat, i2: nat, s: Search, nodes: seq<Node>, r: Route)
    requires Undistracted(t, hp, i1, i2, s, nodes, r) && Exhausted(s)
    ensures NothingFound(t, hp, i1, i2)
  {
    hide Explored, NothingFound;
    ExploredSizes(t, hp, i1, i2, s.items, nodes, s.first);
    Frontier.SearchFails(t, hp, i1, i2, s.items, nodes);
  }
}
