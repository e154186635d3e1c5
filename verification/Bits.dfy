/** Unsigned machine words as naturals: powers of two, masks and exclusive or, bit by bit. */
module Bits {

  function Pow2(k: nat): (p: nat)
    ensures p >= 1
  {
    if k == 0 then 1 else 2 * Pow2(k - 1)
  }

  function XorBit(a: nat, b: nat): nat {
    if a % 2 != b % 2 then 1 else 0
  }

  function AndBit(a: nat, b: nat): nat {
    if a % 2 == 1 && b % 2 == 1 then 1 else 0
  }

  function Xor(a: nat, b: nat): nat
    decreases a + b
  {
    if a == 0 && b == 0 then 0 else 2 * Xor(a / 2, b / 2) + XorBit(a, b)
  }

  function And(a: nat, b: nat): nat
  {
    if a == 0 then 0 else 2 * And(a / 2, b / 2) + AndBit(a, b)
  }

  /** x >> k. */
  function Shr(x: nat, k: nat): nat
    decreases x
  {
    if k == 0 || x == 0 then x else Shr(x / 2, k - 1)
  }

  lemma {:induction false} Pow2Add(a: nat, b: nat)
    ensures Pow2(a + b) == Pow2(a) * Pow2(b)
  {
    if a > 0 {
      Pow2Add(a - 1, b);
    }
  }

  lemma {:induction false} Pow2Increasing(a: nat, b: nat)
    ensures a <= b ==> Pow2(a) <= Pow2(b)
    ensures a < b ==> Pow2(a) < Pow2(b)
    decreases b
  {
    if a < b {
      Pow2Increasing(a, b - 1);
    }
  }

  lemma {:induction false} Pow2Exceeds(k: nat)
    ensures k < Pow2(k)
  {
    if k > 0 {
      Pow2Exceeds(k - 1);
    }
  }

  lemma MultipleGap(a: int, d: nat)
    ensures a >= 1 ==> a * d >= d
    ensures a <= -1 ==> a * d <= -(d as int)
  {
    if a >= 1 {
      assert (a - 1) * d >= 0;
    } else if a <= -1 {
      assert (-a - 1) * d >= 0;
    }
  }

  lemma DivisionIs(x: nat, d: nat)
    requires d > 0
    ensures x == (x / d) * d + x % d && x % d < d
  {
  }

  lemma TimesIncreasing(a: nat, b: nat, d: nat)
    ensures a <= b ==> a * d <= b * d
    ensures a < b ==> a * d + d <= b * d
  {
    if a <= b {
      assert (b - a) * d == b * d - a * d;
      MultipleGap(b - a, d);
    }
  }

  /** Division with remainder is unique. */
  lemma DivModUnique(x: nat, d: nat, q: nat, r: nat)
    requires r < d && x == q * d + r
    ensures x / d == q && x % d == r
  {
    var e, m := x / d, x % d;
    assert e * d == x - m;
    assert (e - q) * d == r - m;
    MultipleGap(e - q, d);
  }

  /** Two different numbers less than n apart have different remainders. */
  lemma CloseNotCongruent(a: nat, b: nat, n: nat)
    requires n > 0 && a < b < a + n
    ensures a % n != b % n
  {
    var q, e := a / n, b / n;
    assert a == q * n + a % n && b == e * n + b % n;
    assert (e - q) * n == e * n - q * n;
    MultipleGap(e - q, n);
  }

  lemma NextCongruent(a: nat, n: nat)
    requires n > 0
    ensures (a + n) % n == a % n
  {
    var q, r := a / n, a % n;
    assert (q + 1) * n == q * n + n;
    DivModUnique(a + n, n, q + 1, r);
  }

  /** Splits off the lowest bit of a remainder by an even number. */
  lemma ModTwice(x: nat, p: nat)
    requires p > 0
    ensures x % (2 * p) == 2 * ((x / 2) % p) + x % 2
  {
    var q, r := (x / 2) / p, (x / 2) % p;
    assert x == q * (2 * p) + (2 * r + x % 2) by {
      assert x / 2 == q * p + r;
    }
    DivModUnique(x, 2 * p, q, 2 * r + x % 2);
  }

  lemma AndOddMask(x: nat, p: nat)
    requires p > 0
    ensures And(x, 2 * p - 1) == 2 * And(x / 2, p - 1) + x % 2
  {
    assert (2 * p - 1) / 2 == p - 1 && (2 * p - 1) % 2 == 1;
  }

  /** Masking with 2^k - 1 keeps the remainder modulo 2^k. */
  lemma {:induction false} AndMask(x: nat, k: nat)
    ensures And(x, Pow2(k) - 1) == x % Pow2(k)
    decreases k
  {
    if k == 0 {
      assert Pow2(k) == 1;
      AndZero(x);
    } else {
      var p, h := Pow2(k - 1), x / 2;
      assert And(x, 2 * p - 1) == x % (2 * p) by {
        assert And(h, p - 1) == h % p by { AndMask(h, k - 1); }
        AndOddMask(x, p);
        ModTwice(x, p);
      }
      assert Pow2(k) == 2 * p;
    }
  }

  lemma {:induction false} AndZero(x: nat)
    ensures And(x, 0) == 0
  {
    if x > 0 {
      AndZero(x / 2);
    }
  }

  lemma {:induction false} XorBound(a: nat, b: nat, k: nat)
    requires a < Pow2(k) && b < Pow2(k)
    ensures Xor(a, b) < Pow2(k)
    decreases k
  {
    if k > 0 {
      XorBound(a / 2, b / 2, k - 1);
    }
  }

  lemma {:induction false} XorZero(a: nat)
    ensures Xor(a, 0) == a
  {
    if a > 0 {
      XorZero(a / 2);
    }
  }

  lemma XorHalves(a: nat, b: nat)
    ensures Xor(a, b) / 2 == Xor(a / 2, b / 2)
    ensures Xor(a, b) % 2 == XorBit(a, b)
    ensures Xor(a, b) == 2 * Xor(a / 2, b / 2) + XorBit(a, b)
  {
    if a == 0 && b == 0 {
      assert Xor(0, 0) == 0;
    } else {
      var h, l := Xor(a / 2, b / 2), XorBit(a, b);
      assert Xor(a, b) == 2 * h + l;
    }
  }

  /** Exclusive or with the same word twice gives back the first word. */
  lemma {:induction false} XorCancel(a: nat, b: nat)
    ensures Xor(Xor(a, b), b) == a
    decreases a + b
  {
    if a != 0 || b != 0 {
      XorCancel(a / 2, b / 2);
      var c := Xor(a, b);
      XorHalves(a, b);
      XorHalves(c, b);
      assert c % 2 == XorBit(a, b);
    }
  }

  /** The low k bits of an exclusive or depend only on the low k bits of its operands. */
  lemma {:induction false} XorMod(a: nat, b: nat, k: nat)
    ensures Xor(a, b) % Pow2(k) == Xor(a % Pow2(k), b % Pow2(k))
    decreases k
  {
    if k > 0 {
      var p := Pow2(k - 1);
      ModTwice(a, p);
      ModTwice(b, p);
      ModTwice(Xor(a, b), p);
      XorMod(a / 2, b / 2, k - 1);
      assert Xor(a, b) / 2 == Xor(a / 2, b / 2) && Xor(a, b) % 2 == XorBit(a, b);
      var x, y := a % Pow2(k), b % Pow2(k);
      assert x / 2 == (a / 2) % p && y / 2 == (b / 2) % p && x % 2 == a % 2 && y % 2 == b % 2;
    }
  }

  lemma SmallMod(x: nat, n: nat)
    requires x < n
    ensures x % n == x
  {
    DivModUnique(x, n, 0, x);
  }

  /** Within k bits, exclusive or with the same word twice gives back the first word. */
  lemma MaskedXorCancel(i: nat, t: nat, k: nat)
    requires i < Pow2(k)
    ensures Xor(Xor(i, t) % Pow2(k), t) % Pow2(k) == i
  {
    var n := Pow2(k);
    var u := t % n;
    var a := Xor(i, u);
    SmallMod(i, n);
    XorMod(i, t, k);
    XorBound(i, u, k);
    SmallMod(a, n);
    XorMod(a, t, k);
    XorCancel(i, u);
  }

  lemma MaskedXorLow(i: nat, j: nat, t: nat, k: nat)
    requires j % Pow2(k) == i % Pow2(k)
    ensures Xor(j, t) % Pow2(k) == Xor(i, t) % Pow2(k)
  {
    XorMod(i, t, k);
    XorMod(j, t, k);
  }

  /** A remainder modulo 2^(k+1) is the one modulo 2^k, with or without the bit at position k. */
  lemma ModDouble(x: nat, k: nat)
    ensures x % Pow2(k + 1) == x % Pow2(k) || x % Pow2(k + 1) == x % Pow2(k) + Pow2(k)
    ensures (x % Pow2(k + 1)) % Pow2(k) == x % Pow2(k)
  {
    Pow2Twice(k);
    hide *;
    DivisionIs(x, Pow2(k + 1));
    TwiceRemainder(x, Pow2(k), Pow2(k + 1), x / Pow2(k + 1), x % Pow2(k + 1));
  }

  predicate IsTwice(n: nat, p: nat) {
    n == 2 * p
  }

  lemma Pow2Twice(k: nat)
    ensures IsTwice(Pow2(k + 1), Pow2(k))
  {
  }

  lemma TwiceRemainder(x: nat, p: nat, n: nat, q: nat, r: nat)
    requires p > 0 && IsTwice(n, p) && x == q * n + r && r < n
    ensures (r == x % p || r == x % p + p) && r % p == x % p
  {
    TwiceProduct(q, p, n);
    HalfRemainder(x, p, q, r);
  }

  lemma TwiceProduct(q: nat, p: nat, n: nat)
    requires n == 2 * p
    ensures q * n == (2 * q) * p && (2 * q) * p + p == (2 * q + 1) * p
  {
  }

  lemma HalfRemainder(x: nat, p: nat, q: nat, r: nat)
    requires r < 2 * p && x == (2 * q) * p + r && (2 * q) * p + p == (2 * q + 1) * p
    ensures x % p == (if r < p then r else r - p) && r % p == x % p
  {
    if r < p {
      DivModUnique(x, p, 2 * q, r);
      SmallMod(r, p);
    } else {
      DivModUnique(x, p, 2 * q + 1, r - p);
      DivModUnique(r, p, 1, r - p);
    }
  }

  lemma NestedRemainder(x: nat, p: nat, c: nat, u: nat, v: nat, r: nat)
    requires r < p && x == u * (p * c) + v * p + r
    ensures x % p == r
  {
    assert u * (p * c) == (u * c) * p;
    assert u * (p * c) + v * p == (u * c + v) * p;
    assert u * c >= 0;
    DivModUnique(x, p, u * c + v, r);
  }

  lemma ModOfMultiple(x: nat, p: nat, c: nat, n: nat)
    requires p > 0 && n > 0 && n == p * c
    ensures (x % n) % p == x % p
  {
    var u, y := x / n, x % n;
    assert u * n == u * (p * c);
    NestedRemainder(x, p, c, u, y / p, y % p);
  }

  /** Taking a remainder modulo 2^b first does not change the one modulo 2^a when a <= b. */
  lemma ModMod(x: nat, a: nat, b: nat)
    requires a <= b
    ensures (x % Pow2(b)) % Pow2(a) == x % Pow2(a)
  {
    Pow2Add(a, b - a);
    var p, c := Pow2(a), Pow2(b - a);
    ModOfMultiple(x, p, c, Pow2(b));
  }

  // The laws of exclusive or, and how masks and shifts distribute over it.

  lemma {:induction false} XorSymmetric(a: nat, b: nat)
    ensures Xor(a, b) == Xor(b, a)
    decreases a + b
  {
    if a != 0 || b != 0 {
      XorSymmetric(a / 2, b / 2);
      XorHalves(a, b);
      XorHalves(b, a);
    }
  }

  lemma {:induction false} XorAssociative(a: nat, b: nat, c: nat)
    ensures Xor(Xor(a, b), c) == Xor(a, Xor(b, c))
    decreases a + b + c
  {
    if a != 0 || b != 0 || c != 0 {
      XorAssociative(a / 2, b / 2, c / 2);
      XorHalves(a, b);
      XorHalves(b, c);
      XorHalves(Xor(a, b), c);
      XorHalves(a, Xor(b, c));
    }
  }

  /** Exclusive or is zero only of equal words. */
  lemma XorSelf(a: nat, b: nat)
    ensures Xor(a, b) == a <==> b == 0
  {
    XorZero(a);
    XorSymmetric(a, b);
    XorCancel(b, a);
    if Xor(a, b) == a {
      XorZero(a);
      XorSymmetric(a, 0);
      XorCancel(0, a);
    }
  }

  lemma XorInjective(a: nat, b: nat, c: nat)
    requires Xor(a, b) == Xor(a, c)
    ensures b == c
  {
    XorSymmetric(a, b);
    XorSymmetric(a, c);
    XorCancel(b, a);
    XorCancel(c, a);
  }

  lemma XorSwap(a: nat, b: nat, c: nat, d: nat)
    ensures Xor(Xor(a, b), Xor(c, d)) == Xor(Xor(a, c), Xor(b, d))
  {
    XorAssociative(a, b, Xor(c, d));
    XorAssociative(b, c, d);
    XorSymmetric(b, c);
    XorAssociative(c, b, d);
    XorAssociative(a, c, Xor(b, d));
  }

  lemma AndHalves(a: nat, b: nat)
    ensures And(a, b) / 2 == And(a / 2, b / 2) && And(a, b) % 2 == AndBit(a, b)
  {
    if a == 0 {
      assert And(0, b) == 0 && And(0, b / 2) == 0;
    } else {
      var h, l := And(a / 2, b / 2), AndBit(a, b);
      assert And(a, b) == 2 * h + l;
    }
  }

  lemma {:induction false} AndXor(a: nat, b: nat, m: nat)
    ensures And(Xor(a, b), m) == Xor(And(a, m), And(b, m))
    decreases a + b
  {
    if a != 0 || b != 0 {
      AndXor(a / 2, b / 2, m / 2);
      XorHalves(a, b);
      AndHalves(a, m);
      AndHalves(b, m);
      AndHalves(Xor(a, b), m);
      XorHalves(And(a, m), And(b, m));
    }
  }

  lemma {:induction false} ShrXor(a: nat, b: nat, k: nat)
    ensures Shr(Xor(a, b), k) == Xor(Shr(a, k), Shr(b, k))
    decreases k
  {
    if k > 0 {
      XorHalves(a, b);
      ShrXor(a / 2, b / 2, k - 1);
      ShrStep(a, k);
      ShrStep(b, k);
      ShrStep(Xor(a, b), k);
    }
  }

  lemma {:induction false} ShrZero(k: nat)
    ensures Shr(0, k) == 0
  {
  }

  lemma ShrStep(x: nat, k: nat)
    requires k > 0
    ensures Shr(x, k) == Shr(x / 2, k - 1)
  {
    ShrZero(k);
    ShrZero(k - 1);
  }

  /** Shifting to the right divides. */
  lemma {:induction false} ShrDivides(x: nat, k: nat)
    ensures Shr(x, k) == x / Pow2(k)
    decreases k
  {
    if k > 0 {
      ShrStep(x, k);
      ShrDivides(x / 2, k - 1);
      DivideTwice(x, Pow2(k - 1));
    }
  }

  lemma DivideTwice(x: nat, p: nat)
    requires p > 0
    ensures (x / 2) / p == x / (2 * p)
  {
    var q, r := (x / 2) / p, (x / 2) % p;
    assert x == q * (2 * p) + (2 * r + x % 2) by {
      assert x / 2 == q * p + r;
    }
    DivModUnique(x, 2 * p, q, 2 * r + x % 2);
  }

  /** Bit k of an exclusive or is set exactly if it is set in one of the operands. */
  lemma XorBits(a: nat, b: nat, k: nat)
    ensures Shr(Xor(a, b), k) % 2 == if Shr(a, k) % 2 != Shr(b, k) % 2 then 1 else 0
  {
    ShrXor(a, b, k);
    XorHalves(Shr(a, k), Shr(b, k));
  }

  // Multiplying by an odd number, modulo a power of two.

  /** An odd factor does not matter for divisibility by a power of two. */
  lemma {:induction false} OddFactor(d: nat, m: nat, k: nat)
    requires m % 2 == 1
    ensures (d * m) % Pow2(k) == 0 <==> d % Pow2(k) == 0
    decreases k
  {
    if k > 0 {
      ModTwice(d * m, Pow2(k - 1));
      ModTwice(d, Pow2(k - 1));
      OddProduct(d, m);
      if d % 2 == 0 {
        OddFactor(d / 2, m, k - 1);
      }
    }
  }

  lemma OddProduct(d: nat, m: nat)
    requires m % 2 == 1
    ensures (d * m) % 2 == d % 2 && (d % 2 == 0 ==> (d * m) / 2 == (d / 2) * m)
  {
    var e, f := d / 2, m / 2;
    if d % 2 == 0 {
      EvenTimes(e, m);
      DivModUnique(d * m, 2, e * m, 0);
    } else {
      OddTimes(e, f);
      DivModUnique(d * m, 2, e * m + f, 1);
    }
  }

  lemma EvenTimes(e: nat, m: nat)
    ensures (2 * e) * m == (e * m) * 2
  {
  }

  lemma OddTimes(e: nat, f: nat)
    ensures (2 * e + 1) * (2 * f + 1) == (e * (2 * f + 1) + f) * 2 + 1
  {
    EvenTimes(e, 2 * f + 1);
    assert (2 * e + 1) * (2 * f + 1) == (2 * e) * (2 * f + 1) + (2 * f + 1);
  }

  /** Numbers with the same remainder differ by a multiple. */
  lemma SameRemainder(a: nat, b: nat, n: nat)
    requires n > 0 && a % n == b % n && b <= a
    ensures (a - b) % n == 0
  {
    DivisionIs(a, n);
    DivisionIs(b, n);
    assert (a / n - b / n) * n == (a / n) * n - (b / n) * n;
    if a / n < b / n {
      TimesIncreasing(a / n, b / n, n);
    }
    DivModUnique(a - b, n, a / n - b / n, 0);
  }
}
