/** Doubling a table: each bucket splits in two, and the split table stands for the same map. */
module Doubling {
  import opened Bits
  import opened Params
  import opened Hashing
  import opened Rows

  /** A key of old bucket i moves to bucket i + 2^hp of the doubled table. */
  predicate GoesHigh(hp: nat, i: nat, k: Key) {
    || (i == Home(hp, k) && Home(hp + 1, k) == i + HashSize(hp))
    || (i == Other(hp, k) && Other(hp + 1, k) == i + HashSize(hp))
  }

  predicate High(hp: nat, i: nat, s: Slot) {
    s.Live? && GoesHigh(hp, i, s.key)
  }

  /** Wherever a key of bucket i goes, it arrives in one of its candidates. */
  lemma Destination(hp: nat, k: Key, i: nat)
    requires IsCandidate(hp, k, i)
    ensures IsCandidate(hp + 1, k, if GoesHigh(hp, i, k) then i + HashSize(hp) else i)
  {
    HomeDoubles(hp, k);
    OtherDoubles(hp, k);
  }

  /** The positions of true, in increasing order. */
  function Marked(flags: seq<bool>): (s: seq<nat>)
    ensures |s| <= |flags|
    ensures forall x | 0 <= x < |s| :: s[x] < |flags| && flags[s[x]]
    ensures forall x, y | 0 <= x < y < |s| :: s[x] < s[y]
    ensures forall j | 0 <= j < |flags| && flags[j] :: j in s
  {
    if flags == [] then
      []
    else
      var n := |flags| - 1;
      var s := Marked(flags[..n]);
      if flags[n] then s + [n] else s
  }

  function HighFlags(hp: nat, i: nat, b: Bucket): (f: seq<bool>)
    ensures |f| == |b| && forall j | 0 <= j < |b| :: f[j] == High(hp, i, b[j])
  {
    seq(|b|, j requires 0 <= j < |b| => High(hp, i, b[j]))
  }

  /** The slots of an old bucket whose pairs go to the high half, in order. */
  function HighSlots(hp: nat, i: nat, b: Bucket): (s: seq<nat>)
    ensures |s| <= |b|
    ensures forall x | 0 <= x < |s| :: s[x] < |b| && High(hp, i, b[s[x]])
    ensures forall x, y | 0 <= x < y < |s| :: s[x] < s[y]
    ensures forall j | 0 <= j < |b| && High(hp, i, b[j]) :: j in s
  {
    Marked(HighFlags(hp, i, b))
  }

  /** What stays of an old bucket: the other pairs, in the same slots. */
  function LowBucket(hp: nat, i: nat, b: Bucket): (r: Bucket)
    ensures |r| == |b|
    ensures forall j | 0 <= j < |b| :: r[j] == if High(hp, i, b[j]) then Empty else b[j]
  {
    seq(|b|, j requires 0 <= j < |b| => if High(hp, i, b[j]) then Empty else b[j])
  }

  /** What moves of an old bucket: packed into the first slots. */
  function HighBucket(hp: nat, i: nat, b: Bucket): (r: Bucket)
    ensures |r| == |b|
    ensures var s := HighSlots(hp, i, b);
            forall x | 0 <= x < |b| :: r[x] == if x < |s| then b[s[x]] else Empty
  {
    var s := HighSlots(hp, i, b);
    seq(|b|, x requires 0 <= x < |b| => if x < |s| then b[s[x]] else Empty)
  }

  /** Bucket r of the doubled table, computed from one old bucket alone. */
  function NewBucket(hp: nat, src: Table, r: nat): (b: Bucket)
    requires Shaped(src, hp) && r < Pow2(hp + 1)
    ensures |b| == SLOTS
  {
    var n := HashSize(hp);
    if r < n then LowBucket(hp, r, src[r]) else HighBucket(hp, r - n, src[r - n])
  }

  function Doubled(hp: nat, src: Table): (t: Table)
    requires Shaped(src, hp)
    ensures Shaped(t, hp + 1)
    ensures forall r | 0 <= r < Pow2(hp + 1) :: t[r] == NewBucket(hp, src, r)
  {
    seq(Pow2(hp + 1), r requires 0 <= r < Pow2(hp + 1) => NewBucket(hp, src, r))
  }

  /** The old position of the pair at (r, j) of the doubled table. */
  function Origin(hp: nat, src: Table, r: nat, j: nat): (p: (nat, nat))
    requires Shaped(src, hp) && LiveAt(Doubled(hp, src), r, j)
    ensures LiveAt(src, p.0, p.1) && src[p.0][p.1] == Doubled(hp, src)[r][j]
    ensures r == if High(hp, p.0, src[p.0][p.1]) then p.0 + HashSize(hp) else p.0
    ensures if r == p.0 then j == p.1 else j < |HighSlots(hp, p.0, src[p.0])| && HighSlots(hp, p.0, src[p.0])[j] == p.1
  {
    var n := HashSize(hp);
    if r < n then (r, j) else (r - n, HighSlots(hp, r - n, src[r - n])[j])
  }

  lemma OriginInjective(hp: nat, src: Table, r: nat, j: nat, q: nat, x: nat)
    requires Shaped(src, hp) && LiveAt(Doubled(hp, src), r, j) && LiveAt(Doubled(hp, src), q, x)
    requires Origin(hp, src, r, j) == Origin(hp, src, q, x)
    ensures r == q && j == x
  {
    hide *;
  }

  /** Every old pair is somewhere in the doubled table. */
  lemma Arrives(hp: nat, src: Table, i: nat, j: nat)
    requires Shaped(src, hp) && LiveAt(src, i, j)
    ensures Stored(Doubled(hp, src), src[i][j].key)
  {
    hide GoesHigh;
    var t, n := Doubled(hp, src), HashSize(hp);
    if High(hp, i, src[i][j]) {
      var s := HighSlots(hp, i, src[i]);
      var x :| 0 <= x < |s| && s[x] == j;
      assert t[i + n] == HighBucket(hp, i, src[i]);
      assert LiveAt(t, i + n, x) && t[i + n][x].key == src[i][j].key;
    } else {
      assert t[i] == LowBucket(hp, i, src[i]);
      assert LiveAt(t, i, j);
    }
  }

  lemma DoubledPlaced(hp: nat, src: Table)
    requires Shaped(src, hp) && Placed(src, hp)
    ensures Placed(Doubled(hp, src), hp + 1)
  {
    var t := Doubled(hp, src);
    forall r, j | LiveAt(t, r, j)
      ensures t[r][j].partial == PartialOf(t[r][j].key) && IsCandidate(hp + 1, t[r][j].key, r)
    {
      var (i, x) := Origin(hp, src, r, j);
      Destination(hp, src[i][x].key, i);
    }
  }

  lemma DoubledUnique(hp: nat, src: Table)
    requires Shaped(src, hp) && Unique(src)
    ensures Unique(Doubled(hp, src))
  {
    var t := Doubled(hp, src);
    forall r, j, q, x | LiveAt(t, r, j) && LiveAt(t, q, x) && t[r][j].key == t[q][x].key
      ensures r == q && j == x
    {
      var a, b := Origin(hp, src, r, j), Origin(hp, src, q, x);
      assert LiveAt(src, a.0, a.1) && LiveAt(src, b.0, b.1);
      OriginInjective(hp, src, r, j, q, x);
    }
  }

  /** The doubled table stands for the same map, at the next hashpower. */
  lemma DoubledRepresents(hp: nat, src: Table, m: map<Key, Value>)
    requires Represents(src, hp, m)
    ensures Represents(Doubled(hp, src), hp + 1, m)
  {
    var t := Doubled(hp, src);
    DoubledPlaced(hp, src);
    DoubledUnique(hp, src);
    forall r, j | LiveAt(t, r, j)
      ensures t[r][j].key in m && m[t[r][j].key] == t[r][j].value
    {
      var (i, x) := Origin(hp, src, r, j);
      assert LiveAt(src, i, x);
    }
    forall k | k in m
      ensures Stored(t, k)
    {
      var i, j :| LiveAt(src, i, j) && src[i][j].key == k;
      Arrives(hp, src, i, j);
    }
  }
}
