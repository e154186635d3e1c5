/** The packed form of a search path: a root (0 or 1) and up to five slots in one 16-bit number. */
module PathCode {
  import opened Bits

  const MAX_BFS_PATH_LEN: nat := 5
  const WORD16: nat := 0x1_0000

  function ConstPow(a: nat, b: nat): (p: nat)
    ensures a >= 1 ==> p >= 1
    decreases b
  {
    if b == 0 then 1 else a * ConstPow(a, b - 1)
  }

  predicate SlotsBelow(s: nat, slots: seq<nat>) {
    forall x | 0 <= x < |slots| :: slots[x] < s
  }

  /** One more slot appended to a code, as the search computes it before truncation. */
  function Extend(s: nat, code: nat, slot: nat): nat {
    code * s + slot
  }

  /** The code of a path in unbounded arithmetic. */
  function Encode(s: nat, root: nat, slots: seq<nat>): nat {
    if slots == [] then root else Extend(s, Encode(s, root, slots[..|slots| - 1]), slots[|slots| - 1])
  }

  /** The code of a path when every step is stored in a uint16_t. */
  function Encode16(s: nat, root: nat, slots: seq<nat>): (c: nat)
    requires root < WORD16
    ensures c < WORD16
  {
    if slots == [] then root
    else Extend(s, Encode16(s, root, slots[..|slots| - 1]), slots[|slots| - 1]) % WORD16
  }

  /** Takes n slots off a code from the end; what is left over should be the root. */
  function Decode(s: nat, code: nat, n: nat): (r: (nat, seq<nat>))
    requires s >= 1
    ensures |r.1| == n && SlotsBelow(s, r.1)
  {
    if n == 0 then
      (code, [])
    else
      var r := Decode(s, code / s, n - 1);
      (r.0, r.1 + [code % s])
  }

  lemma ExtendBound(c: nat, p: nat, s: nat, slot: nat)
    requires c < 2 * p && slot < s
    ensures Extend(s, c, slot) < 2 * (s * p)
  {
    assert (2 * p - 1 - c) * s >= 0;
    assert (2 * p - 1 - c) * s == 2 * (s * p) - s - c * s;
  }

  lemma {:induction false} DecodeEncode(s: nat, root: nat, slots: seq<nat>)
    requires s >= 1 && SlotsBelow(s, slots)
    ensures Decode(s, Encode(s, root, slots), |slots|) == (root, slots)
  {
    if slots != [] {
      var n := |slots| - 1;
      DecodeEncode(s, root, slots[..n]);
      DivModUnique(Encode(s, root, slots), s, Encode(s, root, slots[..n]), slots[n]);
      assert slots[..n] + [slots[n]] == slots;
    }
  }

  lemma EncodeLast(s: nat, code: nat, root: nat, slots: seq<nat>, x: nat)
    requires code == Encode(s, root, slots) * s + x
    ensures Encode(s, root, slots + [x]) == code
  {
    assert (slots + [x])[..|slots|] == slots;
  }

  /** Putting back the last slot that was taken off a code. */
  lemma PutBack(s: nat, code: nat, root: nat, slots: seq<nat>)
    requires s >= 1 && Encode(s, root, slots) == code / s
    ensures Encode(s, root, slots + [code % s]) == code
  {
    DivisionIs(code, s);
    EncodeLast(s, code, root, slots, code % s);
  }

  lemma {:induction false} EncodeDecode(s: nat, code: nat, n: nat)
    requires s >= 1
    ensures Encode(s, Decode(s, code, n).0, Decode(s, code, n).1) == code
    decreases n
  {
    if n > 0 {
      EncodeDecode(s, code / s, n - 1);
      var r := Decode(s, code / s, n - 1);
      PutBack(s, code, r.0, r.1);
    }
  }

  /** At depth d the code is below 2 * s^d. */
  lemma {:induction false} EncodeBound(s: nat, root: nat, slots: seq<nat>)
    requires s >= 1 && root <= 1 && SlotsBelow(s, slots)
    ensures Encode(s, root, slots) < 2 * ConstPow(s, |slots|)
  {
    if slots != [] {
      var n := |slots| - 1;
      EncodeBound(s, root, slots[..n]);
      ExtendBound(Encode(s, root, slots[..n]), ConstPow(s, n), s, slots[n]);
    }
  }

  lemma {:induction false} ConstPowIncreasing(s: nat, a: nat, b: nat)
    requires s >= 1 && a <= b
    ensures 1 <= ConstPow(s, a) <= ConstPow(s, b)
    decreases b
  {
    if a < b {
      ConstPowIncreasing(s, a, b - 1);
      assert (s - 1) * ConstPow(s, b - 1) >= 0;
    } else if a > 0 {
      ConstPowIncreasing(s, a - 1, b - 1);
      assert (s - 1) * ConstPow(s, b - 1) >= 0;
    }
  }

  /** When 2 * s^5 fits in 16 bits, no step of the encoding ever wraps. */
  lemma {:induction false} NeverWraps(s: nat, root: nat, slots: seq<nat>)
    requires s >= 1 && root <= 1 && SlotsBelow(s, slots) && |slots| <= MAX_BFS_PATH_LEN
    requires 2 * ConstPow(s, MAX_BFS_PATH_LEN) <= WORD16
    ensures Encode16(s, root, slots) == Encode(s, root, slots) < WORD16
  {
    if slots != [] {
      NeverWraps(s, root, slots[..|slots| - 1]);
    }
    EncodeBound(s, root, slots);
    ConstPowIncreasing(s, |slots|, MAX_BFS_PATH_LEN);
  }

  ghost predicate RoundTrips(s: nat)
    requires s >= 1
  {
    forall root: nat, slots | root <= 1 && SlotsBelow(s, slots) && |slots| <= MAX_BFS_PATH_LEN ::
      Decode(s, Encode16(s, root, slots), |slots|) == (root, slots)
  }

  function LastSlots(s: nat, n: nat): (slots: seq<nat>)
    requires s >= 1
    ensures |slots| == n && SlotsBelow(s, slots)
  {
    seq(n, _ => s - 1)
  }

  lemma {:induction false} LargestCode(s: nat, n: nat)
    requires s >= 1
    ensures Encode(s, 1, LastSlots(s, n)) == 2 * ConstPow(s, n) - 1
  {
    if n > 0 {
      LargestCode(s, n - 1);
      assert LastSlots(s, n)[..n - 1] == LastSlots(s, n - 1);
      LargestStep(s, ConstPow(s, n - 1));
    }
  }

  lemma LargestStep(s: nat, p: nat)
    requires s >= 1 && p >= 1
    ensures Extend(s, 2 * p - 1, s - 1) == 2 * (s * p) - 1
  {
    assert (2 * p - 1) * s == 2 * (s * p) - s;
  }

  /** Paths survive packing and unpacking for every root and every slot sequence exactly when 2 * s^5 fits in 16 bits. */
  lemma RoundTripsExactly(s: nat)
    requires s >= 1
    ensures RoundTrips(s) <==> 2 * ConstPow(s, MAX_BFS_PATH_LEN) <= WORD16
  {
    if 2 * ConstPow(s, MAX_BFS_PATH_LEN) <= WORD16 {
      forall root: nat, slots | root <= 1 && SlotsBelow(s, slots) && |slots| <= MAX_BFS_PATH_LEN
        ensures Decode(s, Encode16(s, root, slots), |slots|) == (root, slots)
      {
        NeverWraps(s, root, slots);
        DecodeEncode(s, root, slots);
      }
    } else {
      var slots := LastSlots(s, MAX_BFS_PATH_LEN);
      LargestCode(s, MAX_BFS_PATH_LEN);
      EncodeDecode(s, Encode16(s, 1, slots), MAX_BFS_PATH_LEN);
      assert Decode(s, Encode16(s, 1, slots), |slots|) != (1, slots);
    }
  }

  /** Nine slots pass the compile-time check s^5 < 65535, but their paths do not survive packing. */
  lemma NineSlotsPassTheCheckButWrap()
    ensures ConstPow(9, MAX_BFS_PATH_LEN) < WORD16 - 1
    ensures !RoundTrips(9)
  {
    assert ConstPow(9, 2) == 81 && ConstPow(9, 3) == 729 && ConstPow(9, 4) == 6561;
    RoundTripsExactly(9);
  }

  lemma EightSlotsFit(s: nat)
    requires 1 <= s <= 8
    ensures 2 * ConstPow(s, MAX_BFS_PATH_LEN) <= WORD16
  {
    assert ConstPow(s, 1) == s;
    assert ConstPow(s, 2) == s * s <= 64;
    assert ConstPow(s, 3) == s * ConstPow(s, 2) <= 512;
    assert ConstPow(s, 4) == s * ConstPow(s, 3) <= 4096;
    assert ConstPow(s, 5) == s * ConstPow(s, 4) <= 32768;
  }
}
