/** Which locks the bucket-locking operations take, in which order, and which of them their guards release. */
module Guards {

  ghost predicate Increasing(s: seq<nat>) {
    forall x, y | 0 <= x < y < |s| :: s[x] < s[y]
  }

  ghost predicate Distinct(s: seq<nat>) {
    forall x, y | 0 <= x < y < |s| :: s[x] != s[y]
  }

  /** Two lock indices after one compare-and-swap. */
  function SortedTwo(a: nat, b: nat): (nat, nat) {
    if b < a then (b, a) else (a, b)
  }

  /** Three lock indices after three compare-and-swaps. */
  function SortedThree(a: nat, b: nat, c: nat): (nat, nat, nat) {
    var (p, q) := if c < b then (c, b) else (b, c);
    var (x, r) := if q < a then (q, a) else (a, q);
    if p < x then (p, x, r) else (x, p, r)
  }

  /** The locks that lock_two takes, in order: each index once. */
  function TakenTwo(a: nat, b: nat): seq<nat> {
    var (l1, l2) := SortedTwo(a, b);
    [l1] + if l2 != l1 then [l2] else []
  }

  /** The locks that lock_three takes, in order. */
  function TakenThree(a: nat, b: nat, c: nat): seq<nat> {
    var (l0, l1, l2) := SortedThree(a, b, c);
    [l0] + (if l1 != l0 then [l1] else []) + if l2 != l1 then [l2] else []
  }

  /** The locks that the two guards of a TwoBuckets object release. */
  function TwoGuards(a: nat, b: nat): seq<nat> {
    [a] + if a != b then [b] else []
  }

  /** With the guard of a third bucket, which is inactive when that bucket shares a lock with one of the others. */
  function ThreeGuards(a: nat, b: nat, c: nat): seq<nat> {
    TwoGuards(a, b) + if c == a || c == b then [] else [c]
  }

  method SortTwo(a: nat, b: nat) returns (l1: nat, l2: nat)
    ensures (l1, l2) == SortedTwo(a, b)
    ensures l1 <= l2 && multiset{l1, l2} == multiset{a, b}
  {
    l1, l2 := a, b;
    if l2 < l1 {
      l1, l2 := l2, l1;
    }
  }

  method SortThree(a: nat, b: nat, c: nat) returns (l0: nat, l1: nat, l2: nat)
    ensures (l0, l1, l2) == SortedThree(a, b, c)
    ensures l0 <= l1 <= l2 && multiset{l0, l1, l2} == multiset{a, b, c}
  {
    l0, l1, l2 := a, b, c;
    if l2 < l1 {
      l2, l1 := l1, l2;
    }
    if l2 < l0 {
      l2, l0 := l0, l2;
    }
    if l1 < l0 {
      l1, l0 := l0, l1;
    }
  }

  /** Two locks are taken in increasing order, and exactly those are released, each once. */
  lemma TwoGuardsOwnTheirLocks(a: nat, b: nat)
    ensures TakenTwo(a, b) != [] && Increasing(TakenTwo(a, b)) && forall l :: l in TakenTwo(a, b) <==> l == a || l == b
    ensures Distinct(TwoGuards(a, b)) && forall l :: l in TwoGuards(a, b) <==> l in TakenTwo(a, b)
  {
  }

  /** The same for three locks, whichever of them coincide. */
  lemma ThreeGuardsOwnTheirLocks(a: nat, b: nat, c: nat)
    ensures TakenThree(a, b, c) != [] && Increasing(TakenThree(a, b, c)) && forall l :: l in TakenThree(a, b, c) <==> l == a || l == b || l == c
    ensures Distinct(ThreeGuards(a, b, c)) && forall l :: l in ThreeGuards(a, b, c) <==> l in TakenThree(a, b, c)
  {
  }
}
