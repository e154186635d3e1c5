/** Choosing a hashpower for a number of elements, and splitting a range of work among threads. */
module Sizing {
  import opened Bits
  import opened Params
  import opened Hashing

  function Capacity(hp: nat): nat {
    HashSize(hp) * SLOTS
  }

  lemma CapacityPositive(hp: nat)
    ensures Capacity(hp) > 0
  {
    assert (HashSize(hp) - 1) * SLOTS >= 0;
  }

  /** load_factor(), over the reals. */
  function Load(n: nat, hp: nat): real {
    CapacityPositive(hp);
    n as real / Capacity(hp) as real
  }

  /** The load factor is the part of all slots that n elements fill. */
  lemma LoadIsShare(n: nat, hp: nat, f: real)
    requires f == Load(n, hp)
    ensures f * (Pow2(hp) * SLOTS) as real == n as real
  {
    CapacityPositive(hp);
  }

  lemma LoadIsQuotient(n: nat, hp: nat)
    ensures Pow2(hp) * SLOTS > 0 && Load(n, hp) == n as real / (Pow2(hp) * SLOTS) as real
  {
    CapacityPositive(hp);
  }

  /** It vanishes for no element, and every further element adds the same amount. */
  lemma LoadSteps(n: nat, hp: nat)
    ensures Load(0, hp) == 0.0 && Load(n + 1, hp) - Load(n, hp) == Load(1, hp) && Load(1, hp) > 0.0
  {
    CapacityPositive(hp);
    var c := Capacity(hp) as real;
    assert (n + 1) as real == n as real + 1.0;
    SumOverC(n as real, 1.0, c);
    Positive(c);
  }

  lemma SumOverC(x: real, y: real, c: real)
    requires c > 0.0
    ensures (x + y) / c == x / c + y / c
  {
  }

  lemma Positive(c: real)
    requires c > 0.0
    ensures 1.0 / c > 0.0
  {
  }

  /** In a table of twice the size it is half as big. */
  lemma LoadHalves(n: nat, hp: nat)
    ensures Load(n, hp + 1) == Load(n, hp) / 2.0
  {
    CapacityPositive(hp);
    assert Capacity(hp + 1) == 2 * Capacity(hp) by {
      assert Pow2(hp + 1) == 2 * Pow2(hp);
    }
    HalfOver(n as real, Capacity(hp) as real);
  }

  lemma HalfOver(x: real, c: real)
    requires c > 0.0
    ensures x / (2.0 * c) == x / c / 2.0
  {
  }

  /** A table is emptier than any positive load factor once it is big enough. */
  lemma LoadVanishes(n: nat, f: real) returns (bound: nat)
    requires f > 0.0
    ensures forall h: nat | h >= bound :: Load(n, h) < f
  {
    bound := (n as real / f).Floor + 1;
    assert n as real < bound as real * f by {
      assert n as real / f < bound as real;
      assert (n as real / f) * f == n as real;
    }
    forall h: nat | h >= bound
      ensures Load(n, h) < f
    {
      LoadBelow(n, f, bound, h);
    }
  }

  lemma LoadBelow(n: nat, f: real, bound: nat, h: nat)
    requires f > 0.0 && n as real < bound as real * f && bound <= h
    ensures Load(n, h) < f
  {
    CapacityExceeds(h);
    Quotient(n as real, f, bound as real, Capacity(h) as real);
  }

  lemma CapacityExceeds(h: nat)
    ensures h < Capacity(h)
  {
    Pow2Exceeds(h);
    TimesIncreasing(1, SLOTS, HashSize(h));
  }

  lemma Quotient(n: real, f: real, b: real, c: real)
    requires f > 0.0 && n < b * f && 0.0 <= b <= c && c > 0.0
    ensures n / c < f
  {
    assert b * f <= c * f by {
      assert (c - b) * f >= 0.0;
    }
  }

  /** n elements fit p buckets exactly when p is at least n / SLOTS rounded up. */
  lemma RoundedUp(n: nat, p: nat)
    ensures n <= p * SLOTS <==> (n + SLOTS - 1) / SLOTS <= p
  {
    var q, r := (n + SLOTS - 1) / SLOTS, (n + SLOTS - 1) % SLOTS;
    assert q * SLOTS + r == n + SLOTS - 1;
    assert (p - q) * SLOTS == p * SLOTS - q * SLOTS;
    MultipleGap(p - q, SLOTS);
  }

  /** The smallest hashpower whose capacity holds n elements. */
  method ReserveCalc(n: nat) returns (blog2: nat)
    ensures n <= Capacity(blog2)
    ensures forall h: nat | n <= Capacity(h) :: blog2 <= h
  {
    var buckets := (n + SLOTS - 1) / SLOTS;
    blog2 := 0;
    while HashSize(blog2) < buckets
      invariant blog2 <= buckets
      invariant forall h: nat | h < blog2 :: HashSize(h) < buckets
      decreases buckets - blog2
    {
      Pow2Exceeds(blog2);
      blog2 := blog2 + 1;
    }
    RoundedUp(n, HashSize(blog2));
    forall h: nat | n <= Capacity(h)
      ensures blog2 <= h
    {
      RoundedUp(n, HashSize(h));
    }
  }

  lemma CapacityIncreasing(a: nat, b: nat)
    ensures a < b ==> Capacity(a) < Capacity(b)
    ensures a <= b ==> Capacity(a) <= Capacity(b)
  {
    Pow2Increasing(a, b);
    TimesIncreasing(Pow2(a), Pow2(b), SLOTS);
  }

  function WorkPerThread(n: nat, extra: nat): nat {
    n / (1 + extra)
  }

  /** The range of n items that thread w works on; the last one is the calling thread. */
  function WorkRange(n: nat, extra: nat, w: nat): (nat, nat) {
    var work := WorkPerThread(n, extra);
    (w * work, if w == extra then n else w * work + work)
  }

  lemma WorkStarts(n: nat, extra: nat)
    ensures WorkRange(n, extra, 0).0 == 0 && WorkRange(n, extra, extra).0 <= n
  {
    WorkFits(n, extra, extra);
  }

  /** The ranges follow one another without a gap. */
  lemma WorkNext(n: nat, extra: nat, w: nat)
    requires w < extra
    ensures WorkRange(n, extra, w).1 == WorkRange(n, extra, w + 1).0
    ensures WorkRange(n, extra, w).1 == WorkRange(n, extra, w).0 + WorkPerThread(n, extra)
    ensures WorkRange(n, extra, 0).0 == 0 && WorkRange(n, extra, extra).1 == n
  {
    var work := WorkPerThread(n, extra);
    assert (w + 1) * work == w * work + work;
  }

  predicate InRange(i: nat, r: (nat, nat)) {
    r.0 <= i < r.1
  }

  lemma WorkFits(n: nat, extra: nat, w: nat)
    requires w <= extra
    ensures WorkRange(n, extra, w).0 <= WorkRange(n, extra, w).1 <= n
  {
    var work := WorkPerThread(n, extra);
    assert work * (1 + extra) <= n;
    assert work * (extra - w) >= 0;
    assert work * (1 + extra) == w * work + work + work * (extra - w);
  }

  /** However many workers there are, and even with fewer items than workers, every item is worked on by exactly one thread. */
  lemma WorkPartition(n: nat, extra: nat, i: nat) returns (w: nat)
    requires i < n
    ensures w <= extra && InRange(i, WorkRange(n, extra, w))
    ensures forall v | 0 <= v <= extra && InRange(i, WorkRange(n, extra, v)) :: v == w
  {
    var work := WorkPerThread(n, extra);
    if i >= extra * work {
      w := extra;
    } else {
      w := WorkerOf(i, work, extra);
    }
    forall v | 0 <= v <= extra && InRange(i, WorkRange(n, extra, v))
      ensures v == w
    {
      RangesApart(n, extra, i, v, w);
      RangesApart(n, extra, i, w, v);
    }
  }

  /** The work is shared out evenly: every thread has the same number of items, and the last one what is left over. */
  lemma WorkBalanced(n: nat, extra: nat, w: nat)
    requires w <= extra
    ensures var r := WorkRange(n, extra, w);
            r.1 - r.0 == if w < extra then n / (1 + extra) else n / (1 + extra) + n % (1 + extra)
  {
    var work := WorkPerThread(n, extra);
    DivisionIs(n, 1 + extra);
    assert work * (1 + extra) == extra * work + work;
  }

  lemma WorkerOf(i: nat, work: nat, extra: nat) returns (w: nat)
    requires i < extra * work
    ensures w < extra && w * work <= i < w * work + work
  {
    assert work > 0;
    w := i / work;
    DivisionIs(i, work);
    TimesIncreasing(extra, w, work);
  }

  /** An item is not in the range of an earlier worker than the one it belongs to. */
  lemma RangesApart(n: nat, extra: nat, i: nat, v: nat, w: nat)
    requires v <= extra && w <= extra && InRange(i, WorkRange(n, extra, v)) && InRange(i, WorkRange(n, extra, w))
    ensures v >= w
  {
    hide WorkPerThread;
    TimesIncreasing(v, w, WorkPerThread(n, extra));
  }
}
