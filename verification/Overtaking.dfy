/**
 * Where exclusion ends: a thread that has unlocked the whole table compares its place with the end of the list of lock arrays
 * only after its last release, and may then unlock an array that another thread has added since. For which tables that can
 * happen, and the run on which it does.
 */
module Overtaking {
  import opened Bits
  import opened Params
  import opened Hashing
  import opened Rows
  import opened Counting
  import opened Sizing
  import opened Lazy
  import opened Locks
  import opened State
  import opened Paths
  import opened PathSearch
  import Frontier
  import opened Protocol
  import opened Exclusion
  import opened Steps
  import opened Guarantees
  import opened Progress
  import opened Runs
  import opened Alone
  import opened Interface

  // Filling the table.

  ghost predicate DistinctKeys(keys: seq<Key>) {
    forall i, j | 0 <= i < j < |keys| :: keys[i] != keys[j]
  }

  lemma {:induction false} KeysCount(keys: seq<Key>, m: map<Key, Value>)
    requires DistinctKeys(keys) && forall i | 0 <= i < |keys| :: keys[i] in m
    ensures |m| >= |keys|
  {
    if keys != [] {
      var n := |keys| - 1;
      RemoveSize(m, keys[n]);
      KeysCount(keys[..n], m - {keys[n]});
    }
  }

  lemma InsertionKeeps(m: map<Key, Value>, k: Key, x: Value)
    ensures var r := Effect(Insertion(k, x), m); k in r && forall i | i in m :: i in r
  {
  }

  /** A thread on its own that goes on inserting more keys than there is room for gets stuck. */
  lemma {:induction false} FillsUp(u: System, v: System, t: nat, keys: seq<Key>, x: Value, n: nat)
    returns (y: System, op: Op, w: System)
    requires Reaches(u, v) && OnItsOwn(v, t) && v.pcs[t].Idle? && n <= |keys|
    requires DistinctKeys(keys) && |keys| > Capacity(v.sh.s.hp) && forall i | 0 <= i < n :: keys[i] in v.sh.m
    ensures Reaches(u, w) && OnItsOwn(y, t) && NoPlace(y.sh, op) && Stuck(y, t, op, w)
    ensures y.pcs == v.pcs && y.sh.s.hp == v.sh.s.hp && |y.sh.owners| == |v.sh.owners| && |y.sh.locks| == |v.sh.locks|
    decreases |keys| - n
  {
    hide *;
    AloneInv(v, t);
    if n == |keys| {
      KeysCount(keys, v.sh.m);
      WholeTable(v, t);
      SizeWithinCapacity(v.sh.s.cur, v.sh.s.hp, v.sh.m);
      assert false;
    } else {
      op := Insertion(keys[n], x);
      y := v;
      w := RunsAlone(u, v, t, op);
      if !NoPlace(v.sh, op) {
        FinishedIs(v, t, op, w);
        InsertionKeeps(v.sh.m, keys[n], x);
        y, op, w := FillsUp(u, w, t, keys, x, n + 1);
      }
    }
  }

  lemma FinishedIs(v: System, t: nat, op: Op, w: System)
    requires Finished(v, t, op, w) && v.pcs[t].Idle?
    ensures OnItsOwn(w, t) && w.pcs == v.pcs && w.sh.m == Effect(op, v.sh.m)
    ensures w.sh.s.hp == v.sh.s.hp && |w.sh.owners| == |v.sh.owners| && |w.sh.locks| == |v.sh.locks|
  {
    hide OnItsOwn, Effect, Answer;
    assert v.pcs[t := Idle] == v.pcs;
  }

  // Locking and unlocking the whole table.

  /** What t may still change when it locks and unlocks everything on its own. */
  ghost predicate Locked(v: System, t: nat, w: System, pc: Pc) {
    OnItsOwn(w, t) && SameData(v.sh, w.sh) && t < |v.pcs| && w.pcs == v.pcs[t := pc]
  }

  lemma LockedStarts(v: System, t: nat)
    requires OnItsOwn(v, t)
    ensures Locked(v, t, v, v.pcs[t])
  {
    hide OnItsOwn;
    AloneInv(v, t);
  }

  lemma LockedThen(v: System, t: nat, x: System, w: System, pc: Pc, q: Pc)
    requires Locked(v, t, x, pc) && Locked(x, t, w, q)
    ensures Locked(v, t, w, q)
  {
    hide OnItsOwn;
  }

  lemma LockedStep(u: System, v: System, t: nat, b: Shared, q: Pc, c: Choice) returns (w: System)
    requires Reaches(u, v) && OnItsOwn(v, t) && ThreadStep(v.sh, v.pcs[t], b, q, t, c) && !v.pcs[t].AtEnd? && SameData(v.sh, b)
    ensures Reaches(u, w) && Locked(v, t, w, q) && w.sh == b
  {
    hide OnItsOwn, ThreadStep, Reaches;
    AloneInv(v, t);
    w := GoesAlone(u, v, t, b, q, c);
  }

  lemma {:induction false} LocksAll(u: System, v: System, t: nat, op: Op, hp: nat, first: nat, gen: nat, l: nat) returns (w: System)
    requires Reaches(u, v) && OnItsOwn(v, t) && v.pcs[t] == LockAll(op, hp, first, gen, l)
    requires gen < |v.sh.owners| && l <= |v.sh.owners[gen]|
    ensures Reaches(u, w) && Locked(v, t, w, AllLocked(op, hp, first))
    decreases |v.sh.owners| - gen, |v.sh.owners[gen]| - l
  {
    hide OnItsOwn, ThreadStep, Reaches, Locked, Inv, Blocked, Shaped, Placed, Represents;
    AloneInv(v, t);
    WholeTable(v, t);
    NotWaiting(v, t);
    var c := AnyChoice(op);
    var b, q := CanLockAll(v, t, false);
    Resizes(v.sh, v.pcs[t], b, q, t, c);
    w := LockedStep(u, v, t, b, q, c);
    if q.LockAll? {
      var x := w;
      LockedIs(v, t, x, q);
      w := LocksAll(u, x, t, op, hp, first, q.gen, q.l);
      LockedThen(v, t, x, w, q, AllLocked(op, hp, first));
    }
  }

  lemma LockedIs(v: System, t: nat, w: System, pc: Pc)
    requires Locked(v, t, w, pc)
    ensures OnItsOwn(w, t) && t < |v.pcs| == |w.pcs| && w.pcs == v.pcs[t := pc] && w.pcs[t] == pc
    ensures w.sh.s == v.sh.s && w.sh.m == v.sh.m && w.sh.locks == v.sh.locks && |w.sh.owners| == |v.sh.owners|
  {
    hide OnItsOwn;
  }

  /** Unlocking, up to the comparison with the end of the list after the last array. */
  lemma {:induction false} UnlocksAll(u: System, v: System, t: nat, gen: nat, l: nat, next: Pc, c: Choice)
    returns (w: System)
    requires Reaches(u, v) && OnItsOwn(v, t) && |v.sh.owners| > 0 && v.pcs[t] == UnlockAll(gen, l, |v.sh.owners| - 1, next)
    requires gen < |v.sh.owners| && l < |v.sh.owners[gen]|
    ensures Reaches(u, w) && Locked(v, t, w, AtEnd(|v.sh.owners| - 1, |v.sh.owners| - 1, next))
    decreases |v.sh.owners| - gen, |v.sh.owners[gen]| - l
  {
    hide OnItsOwn, ThreadStep, Reaches, Locked, Inv, Blocked, Shaped, Placed, Represents;
    var last: nat := |v.sh.owners| - 1;
    AloneInv(v, t);
    var b, q := CanUnlockAll(v, t);
    Resizes(v.sh, v.pcs[t], b, q, t, c);
    w := LockedStep(u, v, t, b, q, c);
    var x := w;
    LockedIs(v, t, x, q);
    if q.UnlockAll? {
      w := UnlocksAll(u, x, t, gen, l + 1, next, c);
      LockedThen(v, t, x, w, q, AtEnd(last, last, next));
    } else if gen < last {
      var y := NextArray(u, x, t, gen, last, next, c);
      LockedThen(v, t, x, y, q, UnlockAll(gen + 1, 0, last, next));
      LockedIs(v, t, y, UnlockAll(gen + 1, 0, last, next));
      w := UnlocksAll(u, y, t, gen + 1, 0, next, c);
      LockedThen(v, t, y, w, UnlockAll(gen + 1, 0, last, next), AtEnd(last, last, next));
    }
  }

  /** From one lock array to the next. */
  lemma NextArray(u: System, v: System, t: nat, gen: nat, last: nat, next: Pc, c: Choice) returns (w: System)
    requires Reaches(u, v) && OnItsOwn(v, t) && v.pcs[t] == AtEnd(gen, last, next) && gen < last && last + 1 == |v.sh.owners|
    ensures Reaches(u, w) && Locked(v, t, w, UnlockAll(gen + 1, 0, last, next)) && 0 < |w.sh.owners[gen + 1]|
  {
    hide OnItsOwn, ThreadStep, Reaches, Inv;
    AloneInv(v, t);
    Resizes(v.sh, v.pcs[t], v.sh, UnlockAll(gen + 1, 0, last, next), t, c);
    w := Goes(u, v, t, v.sh, UnlockAll(gen + 1, 0, last, next), c);
    StaysAlone(v, t, w);
    AloneInv(w, t);
    UnlockRange(w, t);
  }

  lemma UnlockRange(v: System, t: nat)
    requires Inv(v) && t < |v.pcs| && v.pcs[t].UnlockAll?
    ensures v.pcs[t].gen < |v.sh.owners| && v.pcs[t].l < |v.sh.owners[v.pcs[t].gen]|
  {
    hide SharedOk, OwnersMatch, BornOk, CountOk, LooseOk;
  }

  /** From a search that is exhausted to the lock on the whole table. */
  lemma LocksTable(u: System, v: System, t: nat, op: Op) returns (w: System)
    requires Reaches(u, v) && OnItsOwn(v, t) && v.pcs[t].Searching? && v.pcs[t].op == op && Exhausted(v.pcs[t].search)
    ensures |v.sh.owners| > 0 && Reaches(u, w) && Locked(v, t, w, AllLocked(op, v.pcs[t].hp, |v.sh.owners| - 1))
  {
    hide OnItsOwn, ThreadStep, Reaches, Locked, Inv, Exhausted, Shaped, Placed, Represents;
    AloneInv(v, t);
    WholeTable(v, t);
    var hp, first: nat, c := v.pcs[t].hp, |v.sh.owners| - 1, AnyChoice(op);
    var q := LockAll(op, hp, first, first, 0);
    Insides(v.sh, v.pcs[t], v.sh, q, t, c);
    var x := LockedStep(u, v, t, v.sh, q, c);
    LockedIs(v, t, x, q);
    w := LocksAll(u, x, t, op, hp, first, first, 0);
    LockedThen(v, t, x, w, q, AllLocked(op, hp, first));
  }

  /** The resize throws, and the table is unlocked, up to the comparison with the end of the list. */
  lemma Throws(u: System, v: System, t: nat, op: Op) returns (w: System)
    requires Reaches(u, v) && OnItsOwn(v, t) && v.pcs[t].Searching? && v.pcs[t].op == op && Exhausted(v.pcs[t].search)
    ensures |v.sh.owners| > 0 && Reaches(u, w)
    ensures Locked(v, t, w, AtEnd(|v.sh.owners| - 1, |v.sh.owners| - 1, Thrown(op)))
  {
    hide OnItsOwn, ThreadStep, Reaches, Locked, Inv, Exhausted, Shaped, Placed, Represents;
    AloneInv(v, t);
    var x := LocksTable(u, v, t, op);
    var p := AllLocked(op, v.pcs[t].hp, |v.sh.owners| - 1);
    LockedIs(v, t, x, p);
    var first, c := p.first, Choice(op, None, None, 0, true);
    var q := UnlockAll(first, 0, first, Thrown(op));
    Resizes(x.sh, x.pcs[t], x.sh, q, t, c);
    var y := LockedStep(u, x, t, x.sh, q, c);
    LockedIs(x, t, y, q);
    LockedThen(v, t, x, y, p, q);
    AloneInv(y, t);
    UnlockRange(y, t);
    w := UnlocksAll(u, y, t, first, 0, Thrown(op), c);
    LockedThen(v, t, y, w, q, AtEnd(first, first, Thrown(op)));
  }

  lemma {:induction false} FinishesAll(u: System, v: System, t: nat, op: Op, hp: nat, first: nat, l: nat) returns (w: System)
    requires Reaches(u, v) && OnItsOwn(v, t) && v.pcs[t] == Finish(op, hp, first, l) && l <= |v.sh.locks|
    ensures Reaches(u, w) && Locked(v, t, w, Finish(op, hp, first, |v.sh.locks|))
    decreases |v.sh.locks| - l
  {
    hide OnItsOwn, ThreadStep, Reaches, Locked, Inv, Shaped, Placed, Represents;
    AloneInv(v, t);
    WholeTable(v, t);
    if l == |v.sh.locks| {
      LockedStarts(v, t);
      return v;
    }
    var c, q := AnyChoice(op), Finish(op, hp, first, l + 1);
    Resizes(v.sh, v.pcs[t], v.sh, q, t, c);
    var x := LockedStep(u, v, t, v.sh, q, c);
    LockedIs(v, t, x, q);
    w := FinishesAll(u, x, t, op, hp, first, l + 1);
    LockedThen(v, t, x, w, q, Finish(op, hp, first, |v.sh.locks|));
  }

  /** The thread is about to add a lock array, if there are not enough locks. */
  ghost predicate AboutToAppend(v: System, t: nat, op: Op, w: System) {
    && OnItsOwn(w, t) && t < |v.pcs| && |v.sh.owners| > 0 && w.pcs == v.pcs[t := Drained(op, v.sh.s.hp, |v.sh.owners| - 1)]
    && w.sh.s.hp == v.sh.s.hp && |w.sh.owners| == |v.sh.owners| && |w.sh.locks| == |v.sh.locks|
  }

  /** The resize goes ahead. */
  lemma GoesAhead(u: System, v: System, t: nat, op: Op) returns (w: System)
    requires Reaches(u, v) && OnItsOwn(v, t) && v.pcs[t].Searching? && v.pcs[t].op == op && Exhausted(v.pcs[t].search)
    requires v.pcs[t].hp == v.sh.s.hp
    ensures |v.sh.owners| > 0 && Reaches(u, w) && AboutToAppend(v, t, op, w)
  {
    hide OnItsOwn, ThreadStep, Reaches, Locked, Inv, Exhausted;
    AloneInv(v, t);
    var x := LocksTable(u, v, t, op);
    var hp, first: nat, c := v.pcs[t].hp, |v.sh.owners| - 1, AnyChoice(op);
    LockedIs(v, t, x, AllLocked(op, hp, first));
    var q := Finish(op, hp, first, 0);
    Resizes(x.sh, x.pcs[t], x.sh, q, t, c);
    var y := LockedStep(u, x, t, x.sh, q, c);
    LockedIs(x, t, y, q);
    var z := FinishesAll(u, y, t, op, hp, first, 0);
    LockedIs(y, t, z, Finish(op, hp, first, |y.sh.locks|));
    var b := z.sh.(remaining := 0, s := z.sh.s.(past := []));
    Resizes(z.sh, z.pcs[t], b, Drained(op, hp, first), t, c);
    w := GoesAlone(u, z, t, b, Drained(op, hp, first), c);
  }

  // The race.

  /** Thread u has added the lock array gen and has not yet published the new hashpower; all its locks are migrated. */
  ghost predicate Extended(v: System, u: nat, gen: nat) {
    && u < |v.pcs| && v.pcs[u].Appended? && gen + 1 == |v.sh.owners|
    && |v.sh.owners[gen]| == |v.sh.locks| >= Min(MaxLocks(), Pow2(v.sh.s.hp)) && |v.sh.locks| >= 1
    && forall l | 0 <= l < |v.sh.locks| :: v.sh.locks[l].isMigrated
  }

  /** There are fewer locks than there could be, and fewer than there will be buckets: an array is added. */
  lemma Extends(u: System, v: System, t: nat) returns (w: System)
    requires Reaches(u, v) && OnItsOwn(v, t) && v.pcs[t].Drained? && v.pcs[t].hp == v.sh.s.hp
    requires |v.sh.locks| < MaxLocks() && |v.sh.locks| < HashSize(v.sh.s.hp + 1)
    ensures Reaches(u, w) && Extended(w, t, |v.sh.owners|) && w.pcs == v.pcs[t := w.pcs[t]] && w.sh.s.hp == v.sh.s.hp
  {
    hide OnItsOwn, ThreadStep, Reaches, Inv, Shaped, Placed, Represents, Flags;
    AloneInv(v, t);
    WholeTable(v, t);
    var a, p, n := v.sh, v.pcs[t], Min(MaxLocks(), HashSize(v.sh.s.hp + 1));
    var b := a.(owners := a.owners + [seq(n, _ => Some(t))], born := a.born + [p.hp + 1],
                s := a.s.(migrated := Flags(GrownLocks(a.locks, n))), locks := GrownLocks(a.locks, n));
    var q, c := Appended(p.op, p.hp, p.first), AnyChoice(p.op);
    assert AppendLocks(a, p, b, q, t);
    Resizes(a, p, b, q, t, c);
    w := Goes(u, v, t, b, q, c);
    Pow2Increasing(a.s.hp, a.s.hp + 1);
  }

  /** Thread t finds the new array behind the last one it has locked, and goes on to release it. */
  lemma ComparesLate(u: System, v: System, t: nat, r: nat, gen: nat, next: Pc, c: Choice) returns (w: System)
    requires Reaches(u, v) && Extended(v, r, gen) && t < |v.pcs| && t != r && gen >= 1
    requires v.pcs[t] == AtEnd(gen - 1, gen - 1, next)
    ensures Overtaken(v, t) && Reaches(u, w) && w == System(v.sh, v.pcs[t := UnlockAll(gen, 0, gen - 1, next)]) && Extended(w, r, gen)
  {
    hide ThreadStep, Reaches, Inv;
    var q := UnlockAll(gen, 0, gen - 1, next);
    Resizes(v.sh, v.pcs[t], v.sh, q, t, c);
    w := Goes(u, v, t, v.sh, q, c);
  }

  /** It releases lock after lock of the array that thread r counts on. */
  lemma {:induction false} ReleasesAll(u: System, v: System, t: nat, r: nat, gen: nat, l: nat, last: nat, next: Pc, c: Choice)
    returns (w: System)
    requires Reaches(u, v) && Extended(v, r, gen) && t < |v.pcs| && t != r && v.pcs[t] == UnlockAll(gen, l, last, next)
    requires l < |v.sh.owners[gen]| && forall y | 0 <= y < l :: v.sh.owners[gen][y].None?
    ensures Reaches(u, w) && Extended(w, r, gen) && w.pcs == v.pcs[t := AtEnd(gen, last, next)] && SameData(v.sh, w.sh)
    ensures forall y | 0 <= y < |w.sh.owners[gen]| :: w.sh.owners[gen][y].None?
    decreases |v.sh.owners[gen]| - l
  {
    hide ThreadStep, Reaches, Inv;
    var b := v.sh.(owners := v.sh.owners[gen := v.sh.owners[gen][l := None]]);
    var q := if l + 1 < |v.sh.owners[gen]| then UnlockAll(gen, l + 1, last, next) else AtEnd(gen, last, next);
    Resizes(v.sh, v.pcs[t], b, q, t, c);
    w := Goes(u, v, t, b, q, c);
    if q.UnlockAll? {
      w := ReleasesAll(u, w, t, r, gen, l + 1, last, next, c);
    }
  }

  /** It returns with its exception, is called again, and fetches the new array for the old hashpower. */
  lemma CallsAgain(u: System, v: System, t: nat, r: nat, gen: nat, last: nat, op: Op) returns (w: System)
    requires Reaches(u, v) && Extended(v, r, gen) && t < |v.pcs| && t != r && v.pcs[t] == AtEnd(gen, last, Thrown(op))
    ensures Reaches(u, w) && w == System(v.sh, v.pcs[t := Fetch(Task(op, v.sh.s.hp, Operate))])
  {
    hide ThreadStep, Reaches, Inv, Extended;
    ExtendedIs(v, r, gen);
    var c := AnyChoice(op);
    Resizes(v.sh, v.pcs[t], v.sh, Thrown(op), t, c);
    w := Goes(u, v, t, v.sh, Thrown(op), c);
    Tasks(v.sh, w.pcs[t], v.sh, Idle, t, c);
    w := Goes(u, w, t, v.sh, Idle, c);
    Tasks(v.sh, w.pcs[t], v.sh, Begin(op), t, c);
    w := Goes(u, w, t, v.sh, Begin(op), c);
    Tasks(v.sh, w.pcs[t], v.sh, Fetch(Task(op, v.sh.s.hp, Operate)), t, c);
    w := Goes(u, w, t, v.sh, Fetch(Task(op, v.sh.s.hp, Operate)), c);
  }

  lemma ExtendedIs(v: System, r: nat, gen: nat)
    requires Extended(v, r, gen)
    ensures r < |v.pcs| && v.pcs[r].Appended? && gen + 1 == |v.sh.owners|
  {
  }

  /** Nothing keeps it from its critical section, although thread r has locked the whole table. */
  lemma EntersToo(u: System, v: System, t: nat, r: nat, gen: nat, op: Op) returns (w: System)
    requires Reaches(u, v) && Extended(v, r, gen) && t < |v.pcs| && t != r
    requires v.pcs[t] == Fetch(Task(op, v.sh.s.hp, Operate))
    requires forall y | 0 <= y < |v.sh.owners[gen]| :: v.sh.owners[gen][y].None?
    ensures Reaches(u, w) && !Exclusive(w)
  {
    hide Reaches, Inv, Task.Wanted, Home, Other, LockInd, MaxLocks;
    var task := Task(op, v.sh.s.hp, Operate);
    WantedSorted(task);
    LocksCover(task.hp, |v.sh.locks|);
    WantedBelow(task, |v.sh.locks|);
    assert forall y | 0 <= y < |task.Wanted()| :: task.Wanted()[y] in task.Wanted();
    w := Enter(u, v, t, task);
    assert !Excludes(w, t, r, task.Wanted()[0]);
  }

  /** From the moment that thread t has released its last lock while thread r is about to add an array. */
  lemma RaceIsLost(u: System, v: System, t: nat, r: nat, op: Op) returns (w: System)
    requires Reaches(u, v) && OnItsOwn(v, r) && t < |v.pcs| && t != r && v.pcs[r].Drained? && v.pcs[r].hp == v.sh.s.hp
    requires |v.sh.owners| > 0 && v.pcs[t] == AtEnd(|v.sh.owners| - 1, |v.sh.owners| - 1, Thrown(op))
    requires |v.sh.locks| < MaxLocks() && |v.sh.locks| < HashSize(v.sh.s.hp + 1)
    ensures Reaches(u, w) && !Exclusive(w)
  {
    hide *;
    AloneInv(v, r);
    var gen, c := |v.sh.owners|, AnyChoice(op);
    var x := Extends(u, v, r);
    ExtendedIs(x, r, gen);
    x := ComparesLate(u, x, t, r, gen, Thrown(op), c);
    ExtendedSizes(x, r, gen);
    x := ReleasesAll(u, x, t, r, gen, 0, gen - 1, Thrown(op), c);
    var y := CallsAgain(u, x, t, r, gen, gen - 1, op);
    StaysExtended(x, r, gen, y, t);
    w := EntersToo(u, y, t, r, gen, op);
  }

  lemma ExtendedSizes(v: System, r: nat, gen: nat)
    requires Extended(v, r, gen)
    ensures gen < |v.sh.owners| && 0 < |v.sh.owners[gen]|
  {
  }

  lemma StaysExtended(v: System, r: nat, gen: nat, w: System, t: nat)
    requires Extended(v, r, gen) && t < |v.pcs| == |w.pcs| && t != r && w.sh == v.sh && w.pcs == v.pcs[t := w.pcs[t]]
    ensures Extended(w, r, gen)
  {
  }

  // For which tables exclusion holds.

  /** No run of n threads on a new table of the given hashpower ever breaks exclusion. */
  ghost predicate AlwaysExclusive(n: nat, hp: nat) {
    forall v, w | Initial(v) && |v.pcs| == n && v.sh.s.hp == hp && Reaches(v, w) :: Exclusive(w)
  }

  lemma BigIsExclusive(v: System, w: System)
    requires Initial(v) && Reaches(v, w) && HashSize(v.sh.s.hp) >= MaxLocks()
    ensures Exclusive(w)
  {
    hide Initial, Step, Inv, Exclusive;
    var vs, moves :| Run(vs, moves) && vs[0] == v && vs[|moves|] == w;
    BigTables(vs, moves, |moves|);
    InvIsExclusive(w);
  }

  ghost function NewTable(n: nat, hp: nat): (v: System)
    ensures |v.pcs| == n && v.sh.s.hp == hp && |v.sh.owners| == 1 && |v.sh.locks| == Min(HashSize(hp), MaxLocks())
  {
    var locks := seq(Min(HashSize(hp), MaxLocks()), _ => Spinlock(0, true));
    System(Shared([seq(|locks|, _ => None)], [hp], Split(hp, EmptyTable(hp), [], Flags(locks)), locks, 0, map[], []),
           seq(n, _ => Idle))
  }

  lemma NewIsInitial(n: nat, hp: nat)
    ensures Initial(NewTable(n, hp))
  {
    var a := NewTable(n, hp).sh;
    assert a.locks == seq(Min(HashSize(a.s.hp), MaxLocks()), _ => Spinlock(0, true));
    assert a.owners[0] == seq(|a.locks|, _ => None);
    hide EmptyTable, HashSize, MaxLocks;
  }

  lemma NewAlone(n: nat, hp: nat, t: nat)
    requires t < n
    ensures OnItsOwn(NewTable(n, hp), t) && NewTable(n, hp).pcs[t].Idle?
  {
    NewIsInitial(n, hp);
    InitialInv(NewTable(n, hp));
    hide Inv;
  }

  lemma OtherAlone(v: System, t: nat, r: nat)
    requires OnItsOwn(v, t) && r < |v.pcs| && Resting(v.pcs[t])
    ensures OnItsOwn(v, r)
  {
    hide Inv, Resting, Split.AllMigrated;
  }

  /**
   * In a smaller table, with two threads and more keys than it has slots, exclusion is broken: thread 0 inserts until no slot
   * can be freed and throws; thread 1 tries the same and goes on to double the table; thread 0 compares too late.
   */
  lemma SmallIsNotExclusive(n: nat, hp: nat, keys: seq<Key>, x: Value) returns (w: System)
    requires n >= 2 && DistinctKeys(keys) && |keys| > Capacity(hp) && HashSize(hp) < MaxLocks()
    ensures Reaches(NewTable(n, hp), w) && !Exclusive(w)
  {
    hide *;
    var u := NewTable(n, hp);
    ReachesSelf(u);
    NewAlone(n, hp, 0);
    var y, op, s := FillsUp(u, u, 0, keys, x, 0);
    StuckFacts(y, 0, op, s);
    AloneInv(s, 0);
    var a := Throws(u, s, 0, op);
    var end := AtEnd(|s.sh.owners| - 1, |s.sh.owners| - 1, Thrown(op));
    LockedIs(s, 0, a, end);
    EndRests(end);
    NewIdle(n, hp, 1);
    OtherAlone(a, 0, 1);
    NoPlaceSame(y.sh, a.sh, op);
    var b := RunsAlone(u, a, 1, op);
    StuckFacts(a, 1, op, b);
    var c := GoesAhead(u, b, 1, op);
    AboutFacts(b, 1, op, c);
    FewLocks(hp);
    w := RaceIsLost(u, c, 0, 1, op);
  }

  lemma EndRests(pc: Pc)
    requires pc.AtEnd? && pc.gen == pc.last
    ensures Resting(pc)
  {
  }

  lemma NewIdle(n: nat, hp: nat, t: nat)
    requires t < n
    ensures NewTable(n, hp).pcs[t].Idle?
  {
  }

  lemma FewLocks(hp: nat)
    requires HashSize(hp) < MaxLocks()
    ensures Min(HashSize(hp), MaxLocks()) < MaxLocks() && Min(HashSize(hp), MaxLocks()) < HashSize(hp + 1)
  {
    Pow2Increasing(hp, hp + 1);
  }

  lemma StuckFacts(v: System, t: nat, op: Op, w: System)
    requires Stuck(v, t, op, w)
    ensures OnItsOwn(w, t) && t < |v.pcs| == |w.pcs| && w.pcs == v.pcs[t := w.pcs[t]] && w.sh.s == v.sh.s && w.sh.m == v.sh.m
    ensures |w.sh.owners| == |v.sh.owners| && |w.sh.locks| == |v.sh.locks|
    ensures w.pcs[t].Searching? && w.pcs[t].op == op && w.pcs[t].hp == w.sh.s.hp && Exhausted(w.pcs[t].search)
  {
    hide OnItsOwn, Exhausted;
  }

  lemma AboutFacts(v: System, t: nat, op: Op, w: System)
    requires AboutToAppend(v, t, op, w)
    ensures OnItsOwn(w, t) && t < |v.pcs| && |v.sh.owners| > 0 && w.pcs == v.pcs[t := w.pcs[t]] && w.pcs[t].Drained?
    ensures w.pcs[t].hp == w.sh.s.hp == v.sh.s.hp && |w.sh.owners| == |v.sh.owners| && |w.sh.locks| == |v.sh.locks|
  {
    hide OnItsOwn;
  }

  lemma NoPlaceSame(a: Shared, b: Shared, op: Op)
    requires NoPlace(a, op) && b.s == a.s && b.m == a.m
    ensures NoPlace(b, op)
  {
    hide Frontier.NothingFound, Home, Other;
  }

  /**
   * With two or more threads, and more keys than the table has slots, exclusion holds along all runs exactly if the table is
   * created with at least as many buckets as there can be locks.
   */
  lemma ExclusionExactly(n: nat, hp: nat, keys: seq<Key>, x: Value)
    requires n >= 2 && DistinctKeys(keys) && |keys| > Capacity(hp)
    ensures AlwaysExclusive(n, hp) <==> HashSize(hp) >= MaxLocks()
  {
    hide Initial, Exclusive, Reaches, DistinctKeys, Capacity, HashSize, MaxLocks, NewTable;
    if HashSize(hp) >= MaxLocks() {
      forall v, w | Initial(v) && |v.pcs| == n && v.sh.s.hp == hp && Reaches(v, w)
        ensures Exclusive(w)
      {
        BigIsExclusive(v, w);
      }
    } else {
      var w := SmallIsNotExclusive(n, hp, keys, x);
      NewIsInitial(n, hp);
      assert Reaches(NewTable(n, hp), w);
    }
  }
}
