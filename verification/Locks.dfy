/** The data kept beside each lock: an element counter and a migration flag. */
module Locks {

  datatype Spinlock = Spinlock(elemCounter: int, isMigrated: bool)

  function Flags(locks: seq<Spinlock>): (f: seq<bool>)
    ensures |f| == |locks|
  {
    seq(|locks|, l requires 0 <= l < |locks| => locks[l].isMigrated)
  }

  /** The sum of the signed counters, which is what size() returns. */
  function Total(locks: seq<Spinlock>): int {
    if locks == [] then 0 else locks[0].elemCounter + Total(locks[1..])
  }

  function Unmigrated(flags: seq<bool>): nat {
    if flags == [] then 0 else (if flags[0] then 0 else 1) + Unmigrated(flags[1..])
  }

  lemma {:induction false} TotalUpdate(locks: seq<Spinlock>, l: nat, x: Spinlock)
    requires l < |locks|
    ensures Total(locks[l := x]) == Total(locks) - locks[l].elemCounter + x.elemCounter
  {
    if l == 0 {
      assert locks[l := x][1..] == locks[1..];
    } else {
      TotalUpdate(locks[1..], l - 1, x);
      assert locks[l := x][1..] == locks[1..][l - 1 := x];
    }
  }

  lemma TotalStep(locks: seq<Spinlock>, l: nat)
    requires l < |locks|
    ensures Total(locks[l..]) == locks[l].elemCounter + Total(locks[l + 1..])
  {
    assert locks[l..][1..] == locks[l + 1..];
  }

  lemma TotalNone(locks: seq<Spinlock>)
    requires locks == []
    ensures Total(locks) == 0
  {
  }

  lemma {:induction false} TotalAppend(locks: seq<Spinlock>, more: seq<Spinlock>)
    ensures Total(locks + more) == Total(locks) + Total(more)
  {
    if locks == [] {
      assert locks + more == more;
    } else {
      TotalAppend(locks[1..], more);
      assert (locks + more)[1..] == locks[1..] + more;
    }
  }

  lemma {:induction false} TotalZero(locks: seq<Spinlock>)
    requires forall l | 0 <= l < |locks| :: locks[l].elemCounter == 0
    ensures Total(locks) == 0
  {
    if locks != [] {
      TotalZero(locks[1..]);
    }
  }

  /** The total depends on the counters alone. */
  lemma {:induction false} TotalSame(locks: seq<Spinlock>, others: seq<Spinlock>)
    requires |locks| == |others| && forall l | 0 <= l < |locks| :: locks[l].elemCounter == others[l].elemCounter
    ensures Total(locks) == Total(others)
  {
    if locks != [] {
      TotalSame(locks[1..], others[1..]);
    }
  }

  lemma {:induction false} UnmigratedUpdate(flags: seq<bool>, l: nat)
    requires l < |flags| && !flags[l]
    ensures Unmigrated(flags[l := true]) == Unmigrated(flags) - 1
  {
    if l == 0 {
      assert flags[l := true][1..] == flags[1..];
    } else {
      UnmigratedUpdate(flags[1..], l - 1);
      assert flags[l := true][1..] == flags[1..][l - 1 := true];
    }
  }

  lemma {:induction false} UnmigratedZero(flags: seq<bool>)
    ensures Unmigrated(flags) == 0 <==> forall l | 0 <= l < |flags| :: flags[l]
  {
    if flags != [] {
      UnmigratedZero(flags[1..]);
      assert forall l | 0 < l < |flags| :: flags[l] == flags[1..][l - 1];
    }
  }

  lemma {:induction false} UnmigratedAll(flags: seq<bool>)
    requires forall l | 0 <= l < |flags| :: !flags[l]
    ensures Unmigrated(flags) == |flags|
  {
    if flags != [] {
      UnmigratedAll(flags[1..]);
    }
  }
}
