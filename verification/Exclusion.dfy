/** The invariant of the locking protocol: who holds what, and what every thread may rely on where it is. */
module Exclusion {
  import opened Bits
  import opened Params
  import opened Hashing
  import opened Lazy
  import opened Locks
  import opened State
  import opened Paths
  import opened PathSearch
  import opened Guards
  import opened Protocol

  /** Data, counters and lock arrays are in order, and the map is the one that the log leads to. */
  ghost predicate SharedOk(a: Shared) {
    && Good(a.s, a.locks, a.m)
    && |a.owners| == |a.born| >= 1 && |a.owners[a.Last()]| == |a.locks|
    && (forall x | 0 <= x < |a.owners| :: |a.owners[x]| >= 1)
    && a.m == Replay(a.log) && RightAnswers(a.log)
  }

  ghost predicate TaskOk(a: Shared, task: Task) {
    task.hp <= a.s.hp && task.Linked() && (task.goal.Operate? || task.op.Uprase?)
  }

  /** Places where no lock is held. */
  ghost predicate LooseOk(a: Shared, pc: Pc) {
    match pc
    case Idle => true
    case Begin(_) => true
    case Fetch(task) => TaskOk(a, task)
    case Searching(op, hp, s) => hp <= a.s.hp && op.Uprase? && SearchOk(hp, Home(hp, op.key), Other(hp, op.key), s)
    case Done(_, _) => true
    case Thrown(_) => true
    case _ => false
  }

  /** The lock array fetched for a task is big enough, and if a newer one exists the hashpower read is out of date. */
  ghost predicate Spinning(a: Shared, task: Task, gen: nat, all: seq<nat>) {
    && TaskOk(a, task) && gen < |a.owners| == |a.born|
    && |a.owners[gen]| >= Min(MaxLocks(), Pow2(task.hp))
    && (gen + 1 < |a.owners| ==> task.hp < a.born[gen + 1])
    && all == task.Wanted()
  }

  /** A thread that has passed the check of the hashpower. */
  ghost predicate Checked(a: Shared, task: Task, gen: nat, taken: seq<nat>) {
    gen == a.Last() && task.hp == a.s.hp && taken != []
  }

  ghost predicate MigratedUpTo(a: Shared, taken: seq<nat>, x: nat) {
    x <= |taken| && forall y | 0 <= y < x :: taken[y] < |a.s.migrated| && a.s.migrated[taken[y]]
  }

  ghost predicate FreedOk(a: Shared, task: Task, gen: nat, taken: seq<nat>, bucket: nat, slot: nat) {
    && TaskOk(a, task) && task.op.Uprase? && Checked(a, task, gen, taken) && gen < |a.owners|
    && Distinct(taken) && MigratedUpTo(a, taken, |taken|) && (forall y | 0 <= y < |taken| :: taken[y] < |a.owners[gen]|)
    && LockInd(task.First()) in taken && LockInd(task.Second()) in taken
    && (bucket == task.First() || bucket == task.Second())
    && bucket < |a.s.cur| && slot < |a.s.cur[bucket]| && a.s.cur[bucket][slot].Empty?
  }

  ghost predicate PcOk(a: Shared, pc: Pc) {
    match pc
    case Acquire(task, gen, taken, todo) =>
      Spinning(a, task, gen, taken + todo) && todo != [] && (taken != [] ==> Checked(a, task, gen, taken))
    case Check(task, gen, taken, todo) =>
      Spinning(a, task, gen, taken + todo) && |taken| == 1
    case Migrate(task, gen, taken, x) =>
      Spinning(a, task, gen, taken) && Checked(a, task, gen, taken) && MigratedUpTo(a, taken, x)
    case Decrement(task, gen, taken, x) =>
      Spinning(a, task, gen, taken) && Checked(a, task, gen, taken) && MigratedUpTo(a, taken, x + 1)
    case Free(task, gen, taken, x) =>
      Spinning(a, task, gen, taken) && Checked(a, task, gen, taken) && MigratedUpTo(a, taken, x + 1) && a.s.AllMigrated()
    case Inside(task, gen, taken) =>
      Spinning(a, task, gen, taken) && Checked(a, task, gen, taken) && MigratedUpTo(a, taken, |taken|)
    case Freed(task, gen, taken, bucket, slot) => FreedOk(a, task, gen, taken, bucket, slot)
    case Release(gen, taken, next) =>
      gen < |a.owners| && Distinct(taken) && (forall y | 0 <= y < |taken| :: taken[y] < |a.owners[gen]|) && LooseOk(a, next)
    case LockAll(op, hp, first, gen, l) => first <= gen < |a.owners| && l <= |a.owners[gen]| && op.Uprase?
    case AllLocked(op, hp, first) => first < |a.owners| && op.Uprase?
    case Finish(op, hp, first, l) =>
      first < |a.owners| && hp == a.s.hp && l <= |a.s.migrated| && forall y | 0 <= y < l :: a.s.migrated[y]
    case Drained(op, hp, first) =>
      first < |a.owners| && hp == a.s.hp && a.s.AllMigrated() && a.s.past == [] && a.remaining == 0
    case Appended(op, hp, first) =>
      && first < |a.owners| && hp == a.s.hp && a.s.AllMigrated() && a.s.past == [] && a.remaining == 0
      && |a.locks| >= Min(MaxLocks(), Pow2(hp + 1))
    case UnlockAll(gen, l, last, next) => gen <= last < |a.owners| && l < |a.owners[gen]| && LooseOk(a, next)
    case AtEnd(gen, last, next) => gen <= last < |a.owners| && LooseOk(a, next)
    case _ => LooseOk(a, pc)
  }

  /** The owner recorded in a lock is the one thread whose program holds it. */
  ghost predicate OwnersMatch(v: System) {
    && (forall x, y, t | 0 <= x < |v.sh.owners| && 0 <= y < |v.sh.owners[x]| && 0 <= t < |v.pcs| ::
          v.sh.owners[x][y] == Some(t) <==> HasLock(v.pcs[t], x, y))
    && (forall x, y | 0 <= x < |v.sh.owners| && 0 <= y < |v.sh.owners[x]| && v.sh.owners[x][y].Some? ::
          v.sh.owners[x][y].value < |v.pcs|)
  }

  ghost predicate Appender(v: System, t: int) {
    0 <= t < |v.pcs| && v.pcs[t].Appended? && v.pcs[t].first < v.sh.Last()
  }

  /** A lock array is made for a hashpower that is published before its maker lets go of it. */
  ghost predicate BornOk(v: System) {
    forall x | 1 <= x < |v.sh.born| ::
      v.sh.born[x] <= v.sh.s.hp || (x == v.sh.Last() && v.sh.born[x] == v.sh.s.hp + 1 && exists t :: Appender(v, t))
  }

  /** The number of threads that have migrated a stripe but not yet counted it. */
  ghost function Uncounted(pcs: seq<Pc>): nat {
    if pcs == [] then 0 else (if pcs[0].Decrement? then 1 else 0) + Uncounted(pcs[1..])
  }

  /** The lazy counter is right, except while a resizer is migrating what is left. */
  ghost predicate CountOk(v: System) {
    (forall t | 0 <= t < |v.pcs| :: !v.pcs[t].Finish?) ==>
      v.sh.remaining == Unmigrated(v.sh.s.migrated) + Uncounted(v.pcs)
  }

  ghost predicate Inv(v: System) {
    && SharedOk(v.sh) && (forall t | 0 <= t < |v.pcs| :: PcOk(v.sh, v.pcs[t]))
    && OwnersMatch(v) && BornOk(v) && CountOk(v)
  }

  // What other threads may do, as one thread sees it.

  ghost predicate OwnsCurrent(a: Shared, t: nat) {
    |a.owners| > 0 && forall y | 0 <= y < |a.owners[a.Last()]| :: a.owners[a.Last()][y] == Some(t)
  }

  ghost predicate Grows(a: Shared, b: Shared) {
    && b.s.hp >= a.s.hp && |b.owners| == |b.born| >= |a.owners| == |a.born| && |a.owners| > 0
    && (forall x | 0 <= x < |a.owners| :: |b.owners[x]| == |a.owners[x]| && b.born[x] == a.born[x])
    && (|b.owners| > |a.owners| ==> b.born[|a.owners|] > a.s.hp)
  }

  /** Thread t changes data only under locks it holds in the current array, and no flag is taken back. */
  ghost predicate Quiet(a: Shared, b: Shared, t: nat) {
    && |a.owners| > 0 && |b.owners| == |a.owners| && b.s.hp == a.s.hp && |b.locks| == |a.locks| && |b.s.cur| == |a.s.cur|
    && |b.s.migrated| == |a.s.migrated| && (forall l | 0 <= l < |a.s.migrated| && a.s.migrated[l] :: b.s.migrated[l])
    && (forall i | 0 <= i < |a.s.cur| && b.s.cur[i] != a.s.cur[i] ::
          LockInd(i) < |a.owners[a.Last()]| && a.owners[a.Last()][LockInd(i)] == Some(t))
    && (b.remaining != a.remaining || b.s.past != a.s.past ==>
          exists y :: 0 <= y < |a.owners[a.Last()]| && a.owners[a.Last()][y] == Some(t))
  }

  ghost predicate Allowed(a: Shared, b: Shared, t: nat) {
    Grows(a, b) && (Quiet(a, b, t) || OwnsCurrent(a, t))
  }

  /** Thread u holds the locks that its place says. */
  ghost predicate Has(a: Shared, pc: Pc, u: nat) {
    forall x, y | 0 <= x < |a.owners| && 0 <= y < |a.owners[x]| && HasLock(pc, x, y) :: a.owners[x][y] == Some(u)
  }

  lemma LooseStable(a: Shared, b: Shared, pc: Pc)
    requires LooseOk(a, pc) && b.s.hp >= a.s.hp
    ensures LooseOk(b, pc)
  {
    hide Task.Linked;
  }

  lemma SpinningStable(a: Shared, b: Shared, task: Task, gen: nat, all: seq<nat>)
    requires Spinning(a, task, gen, all) && Grows(a, b)
    ensures Spinning(b, task, gen, all)
  {
    hide Task.Linked, Task.Wanted;
  }

  /** A thread holding a lock of the current array is not overtaken by an append or a publication. */
  lemma CheckedStable(a: Shared, b: Shared, t: nat, u: nat, task: Task, gen: nat, taken: seq<nat>, x: nat)
    requires Allowed(a, b, t) && u != t && Checked(a, task, gen, taken)
    requires taken[0] < |a.owners[gen]| && a.owners[gen][taken[0]] == Some(u)
    requires MigratedUpTo(a, taken, x)
    ensures Quiet(a, b, t) && Checked(b, task, gen, taken) && MigratedUpTo(b, taken, x)
    ensures a.s.AllMigrated() ==> b.s.AllMigrated()
  {
    hide LockInd;
  }

  lemma WantedSorted(task: Task)
    requires task.Linked()
    ensures Increasing(task.Wanted()) && task.Wanted() != []
  {
    TwoGuardsOwnTheirLocks(LockInd(task.First()), LockInd(task.Second()));
    hide LockInd, Home, Other, TakenTwo, TakenThree, Increasing, Distinct, AltIndex, PartialKey;
    match task.goal {
      case Operate =>
      case Look(s) => OneIncreasing(LockInd(LooksAt(s)));
      case Settle(_) =>
      case Move(path, depth, d) =>
        if d == 1 {
          ThreeGuardsOwnTheirLocks(LockInd(task.First()), LockInd(task.Second()), LockInd(path[1].bucket));
        } else {
          TwoGuardsOwnTheirLocks(LockInd(path[d - 1].bucket), LockInd(path[d].bucket));
        }
    }
  }

  lemma WantedBelow(task: Task, n: nat)
    requires task.Linked() && forall i: nat | i < Pow2(task.hp) :: LockInd(i) < n
    ensures forall l | l in task.Wanted() :: l < n
  {
    AltOfCandidate(task.hp, task.op.key, task.First());
    TwoGuardsOwnTheirLocks(LockInd(task.First()), LockInd(task.Second()));
    hide LockInd, Home, Other, TakenTwo, TakenThree, Increasing, Distinct, AltIndex, PartialKey;
    match task.goal {
      case Operate =>
      case Look(s) => CanLook(task.hp, task.First(), task.Second(), s);
      case Settle(_) =>
      case Move(path, depth, d) =>
        if d == 1 {
          ThreeGuardsOwnTheirLocks(LockInd(task.First()), LockInd(task.Second()), LockInd(path[1].bucket));
        } else {
          TwoGuardsOwnTheirLocks(LockInd(path[d - 1].bucket), LockInd(path[d].bucket));
        }
    }
  }

  /** The locks wanted for a task exist in its array and are increasing. */
  lemma WantedOk(a: Shared, task: Task, gen: nat)
    requires Spinning(a, task, gen, task.Wanted())
    ensures Increasing(task.Wanted()) && task.Wanted() != []
    ensures forall y | 0 <= y < |task.Wanted()| :: task.Wanted()[y] < |a.owners[gen]|
  {
    hide Task.Wanted, Task.Linked, LockInd, Increasing;
    WantedSorted(task);
    LocksCover(task.hp, |a.owners[gen]|);
    WantedBelow(task, |a.owners[gen]|);
    forall y | 0 <= y < |task.Wanted()|
      ensures task.Wanted()[y] < |a.owners[gen]|
    {
      assert task.Wanted()[y] in task.Wanted();
    }
  }

  lemma OneIncreasing(l: nat)
    ensures Increasing([l])
  {
  }

  /** Places where a thread has locked every lock array up to the end of the list. */
  predicate HasAll(pc: Pc) {
    pc.AllLocked? || pc.Finish? || pc.Drained? || pc.Appended?
  }

  /** A lock beyond the list of arrays can only be in the range of a thread that has locked everything. */
  lemma HasInside(a: Shared, pc: Pc, x: int, y: int)
    requires PcOk(a, pc) && x >= |a.owners| && HasLock(pc, x, y)
    ensures HasAll(pc)
  {
    hide Task.Linked, Task.Wanted, LooseOk, TaskOk, FreedOk, Distinct, MigratedUpTo, Split.AllMigrated, LockInd;
    if pc.Freed? {
      FreedFacts(a, pc.task, pc.gen, pc.taken, pc.bucket, pc.slot);
    }
  }

  lemma FreedFacts(a: Shared, task: Task, gen: nat, taken: seq<nat>, bucket: nat, slot: nat)
    requires FreedOk(a, task, gen, taken, bucket, slot)
    ensures gen < |a.owners| && Checked(a, task, gen, taken) && Distinct(taken) && MigratedUpTo(a, taken, |taken|)
    ensures forall y | 0 <= y < |taken| :: taken[y] < |a.owners[gen]|
  {
    hide LockInd, Home, Other, Distinct, MigratedUpTo, Task.Linked;
  }

  lemma HasAllOwns(a: Shared, pc: Pc, u: nat)
    requires SharedOk(a) && PcOk(a, pc) && HasAll(pc) && Has(a, pc, u)
    ensures OwnsCurrent(a, u) && |a.owners[a.Last()]| > 0 && a.owners[a.Last()][0] == Some(u)
  {
    hide Good, Replay, RightAnswers;
    assert forall y | 0 <= y < |a.owners[a.Last()]| :: HasLock(pc, a.Last(), y);
  }

  lemma FreedStable(a: Shared, b: Shared, t: nat, u: nat, task: Task, gen: nat, taken: seq<nat>, bucket: nat, slot: nat)
    requires Allowed(a, b, t) && u != t && FreedOk(a, task, gen, taken, bucket, slot)
    requires forall y | 0 <= y < |taken| :: a.owners[gen][taken[y]] == Some(u)
    ensures FreedOk(b, task, gen, taken, bucket, slot)
  {
    hide Task.Linked, Distinct;
    CheckedStable(a, b, t, u, task, gen, taken, |taken|);
    hide LockInd, Home, Other;
    assert b.s.cur[bucket] == a.s.cur[bucket];
  }

  lemma AcquireStable(a: Shared, b: Shared, t: nat, u: nat, pc: Pc)
    requires Allowed(a, b, t) && u != t && pc.Acquire? && PcOk(a, pc) && Has(a, pc, u)
    ensures PcOk(b, pc)
  {
    hide Task.Linked, Task.Wanted, Spinning, Checked, MigratedUpTo, Quiet;
    SpinningStable(a, b, pc.task, pc.gen, pc.taken + pc.todo);
    if pc.taken != [] {
      TakenHas(a, pc.task, pc.gen, pc.taken, pc.todo, pc, u);
      MigratedNone(a, pc.taken);
      CheckedStable(a, b, t, u, pc.task, pc.gen, pc.taken, 0);
    }
  }

  /** What a thread may rely on where it is survives the steps of the others. */
  lemma PcStable(a: Shared, b: Shared, t: nat, u: nat, pc: Pc)
    requires SharedOk(a) && Allowed(a, b, t) && u != t && PcOk(a, pc) && Has(a, pc, u)
    ensures PcOk(b, pc)
  {
    hide SharedOk, Task.Linked, Task.Wanted, LooseOk, TaskOk, FreedOk, Spinning, Checked, Distinct, MigratedUpTo, LockInd;
    hide Split.AllMigrated;
    match pc
    case Acquire(_, _, _, _) => AcquireStable(a, b, t, u, pc);
    case Check(task, gen, taken, todo) => SpinningStable(a, b, task, gen, taken + todo);
    case Migrate(task, gen, taken, x) => TaskStable(a, b, t, u, task, gen, taken, x, pc);
    case Decrement(task, gen, taken, x) => TaskStable(a, b, t, u, task, gen, taken, x + 1, pc);
    case Free(task, gen, taken, x) => TaskStable(a, b, t, u, task, gen, taken, x + 1, pc);
    case Inside(task, gen, taken) => TaskStable(a, b, t, u, task, gen, taken, |taken|, pc);
    case Freed(task, gen, taken, bucket, slot) =>
      FreedFacts(a, task, gen, taken, bucket, slot);
      FreedStable(a, b, t, u, task, gen, taken, bucket, slot);
    case Release(_, _, next) => LooseStable(a, b, next);
    case UnlockAll(_, _, _, next) => LooseStable(a, b, next);
    case AtEnd(_, _, next) => LooseStable(a, b, next);
    case LockAll(_, _, _, _, _) =>
    case AllLocked(_, _, _) =>
    case Finish(_, _, _, _) => ResizerStable(a, b, t, u, pc);
    case Drained(_, _, _) => ResizerStable(a, b, t, u, pc);
    case Appended(_, _, _) => ResizerStable(a, b, t, u, pc);
    case _ => LooseStable(a, b, pc);
  }

  lemma ResizerStable(a: Shared, b: Shared, t: nat, u: nat, pc: Pc)
    requires SharedOk(a) && Allowed(a, b, t) && u != t && PcOk(a, pc) && Has(a, pc, u)
    requires pc.Finish? || pc.Drained? || pc.Appended?
    ensures PcOk(b, pc)
  {
    hide *;
    HasAllIs(pc);
    HasAllOwns(a, pc, u);
    OnlyOwner(a, b, t, u);
    QuietFlags(a, b, t, u);
    FlagsStable(a, b, pc);
  }

  lemma HasAllIs(pc: Pc)
    requires pc.Finish? || pc.Drained? || pc.Appended?
    ensures HasAll(pc)
  {
  }

  /** While u owns the current array, another thread can only do what is quiet. */
  lemma OnlyOwner(a: Shared, b: Shared, t: nat, u: nat)
    requires Allowed(a, b, t) && OwnsCurrent(a, u) && |a.owners[a.Last()]| > 0 && u != t
    ensures Quiet(a, b, t)
  {
    hide Quiet, Grows;
    assert a.owners[a.Last()][0] != Some(t);
  }

  lemma FlagsStable(a: Shared, b: Shared, pc: Pc)
    requires PcOk(a, pc) && (pc.Finish? || pc.Drained? || pc.Appended?)
    requires b.s.hp == a.s.hp && |b.s.migrated| == |a.s.migrated| && |b.locks| == |a.locks| && |b.owners| == |a.owners|
    requires b.remaining == a.remaining && b.s.past == a.s.past
    requires forall l | 0 <= l < |a.s.migrated| && a.s.migrated[l] :: b.s.migrated[l]
    ensures PcOk(b, pc)
  {
    hide Spinning, Checked, MigratedUpTo, FreedOk, LooseOk;
  }

  lemma QuietFlags(a: Shared, b: Shared, t: nat, u: nat)
    requires Quiet(a, b, t) && OwnsCurrent(a, u) && u != t
    ensures b.s.hp == a.s.hp && |b.s.migrated| == |a.s.migrated| && |b.locks| == |a.locks| && |b.owners| == |a.owners|
    ensures b.remaining == a.remaining && b.s.past == a.s.past
    ensures forall l | 0 <= l < |a.s.migrated| && a.s.migrated[l] :: b.s.migrated[l]
  {
    hide LockInd;
  }

  lemma MigratedNone(a: Shared, taken: seq<nat>)
    ensures MigratedUpTo(a, taken, 0)
  {
  }

  lemma TakenHas(a: Shared, task: Task, gen: nat, taken: seq<nat>, todo: seq<nat>, pc: Pc, u: nat)
    requires Spinning(a, task, gen, taken + todo) && taken != [] && Has(a, pc, u)
    requires forall y | y in taken :: HasLock(pc, gen, y)
    ensures gen < |a.owners| && taken[0] < |a.owners[gen]| && a.owners[gen][taken[0]] == Some(u)
  {
    WantedOk(a, task, gen);
    assert (taken + todo)[0] == taken[0];
    hide Task.Wanted, Task.Linked, HasLock;
  }

  lemma TaskStable(a: Shared, b: Shared, t: nat, u: nat, task: Task, gen: nat, taken: seq<nat>, x: nat, pc: Pc)
    requires Allowed(a, b, t) && u != t && Has(a, pc, u)
    requires Spinning(a, task, gen, taken) && Checked(a, task, gen, taken) && MigratedUpTo(a, taken, x)
    requires forall y | y in taken :: HasLock(pc, gen, y)
    ensures Spinning(b, task, gen, taken) && Checked(b, task, gen, taken) && MigratedUpTo(b, taken, x)
    ensures a.s.AllMigrated() ==> b.s.AllMigrated()
  {
    SpinningStable(a, b, task, gen, taken);
    assert taken + [] == taken;
    TakenHas(a, task, gen, taken, [], pc, u);
    CheckedStable(a, b, t, u, task, gen, taken, x);
    hide Task.Wanted, Task.Linked, HasLock, Spinning, Checked, MigratedUpTo;
  }

  // Putting one step together: what its thread changes, and what that leaves of the invariant.

  /** Only locks that are free or held by t change hands, new locks are t's, and t holds what its new place says. */
  ghost predicate OwnersStep(a: Shared, b: Shared, t: nat, q: Pc) {
    && (forall x, y | 0 <= x < |a.owners| <= |b.owners| && 0 <= y < |a.owners[x]| == |b.owners[x]| ::
          b.owners[x][y] == a.owners[x][y] || (a.owners[x][y] in {None, Some(t)} && b.owners[x][y] in {None, Some(t)}))
    && (forall x, y | |a.owners| <= x < |b.owners| && 0 <= y < |b.owners[x]| :: b.owners[x][y] == Some(t))
    && (forall x, y | 0 <= x < |b.owners| && 0 <= y < |b.owners[x]| :: b.owners[x][y] == Some(t) <==> HasLock(q, x, y))
  }

  lemma ThreadHas(v: System, u: nat)
    requires OwnersMatch(v) && u < |v.pcs|
    ensures Has(v.sh, v.pcs[u], u)
  {
    hide HasLock;
  }

  lemma NotBeyond(v: System, t: nat, u: nat, x: int, y: int)
    requires SharedOk(v.sh) && OwnersMatch(v) && OwnsCurrent(v.sh, t) && u != t && u < |v.pcs| && PcOk(v.sh, v.pcs[u])
    requires x >= |v.sh.owners|
    ensures !HasLock(v.pcs[u], x, y)
  {
    if HasLock(v.pcs[u], x, y) {
      HasInside(v.sh, v.pcs[u], x, y);
      ThreadHas(v, u);
      HasAllOwns(v.sh, v.pcs[u], u);
    }
    hide SharedOk, PcOk, OwnersMatch, HasLock;
  }

  lemma OwnersKept(v: System, t: nat, b: Shared, q: Pc)
    requires SharedOk(v.sh) && OwnersMatch(v) && t < |v.pcs| && Allowed(v.sh, b, t) && OwnersStep(v.sh, b, t, q)
    requires forall u | 0 <= u < |v.pcs| :: PcOk(v.sh, v.pcs[u])
    ensures OwnersMatch(System(b, v.pcs[t := q]))
  {
    hide *;
    var w := System(b, v.pcs[t := q]);
    forall x, y, u | 0 <= x < |b.owners| && 0 <= y < |b.owners[x]| && 0 <= u < |w.pcs|
      ensures b.owners[x][y] == Some(u) <==> HasLock(w.pcs[u], x, y)
    {
      OwnerKept(v, t, b, q, x, y, u);
    }
    forall x, y | 0 <= x < |b.owners| && 0 <= y < |b.owners[x]| && b.owners[x][y].Some?
      ensures b.owners[x][y].value < |w.pcs|
    {
      OwnerNamed(v, t, b, q, x, y);
    }
    MatchIs(w);
  }

  lemma MatchIs(v: System)
    requires forall x, y, t | 0 <= x < |v.sh.owners| && 0 <= y < |v.sh.owners[x]| && 0 <= t < |v.pcs| ::
               v.sh.owners[x][y] == Some(t) <==> HasLock(v.pcs[t], x, y)
    requires forall x, y | 0 <= x < |v.sh.owners| && 0 <= y < |v.sh.owners[x]| && v.sh.owners[x][y].Some? ::
               v.sh.owners[x][y].value < |v.pcs|
    ensures OwnersMatch(v)
  {
    hide HasLock;
  }

  lemma OwnerKept(v: System, t: nat, b: Shared, q: Pc, x: nat, y: nat, u: nat)
    requires SharedOk(v.sh) && OwnersMatch(v) && t < |v.pcs| && Allowed(v.sh, b, t) && OwnersStep(v.sh, b, t, q)
    requires forall u | 0 <= u < |v.pcs| :: PcOk(v.sh, v.pcs[u])
    requires x < |b.owners| && y < |b.owners[x]| && u < |v.pcs|
    ensures b.owners[x][y] == Some(u) <==> HasLock(v.pcs[t := q][u], x, y)
  {
    hide HasLock, SharedOk, PcOk;
    if u != t && x >= |v.sh.owners| {
      hide Quiet;
      NotBeyond(v, t, u, x, y);
    }
  }

  lemma OwnerNamed(v: System, t: nat, b: Shared, q: Pc, x: nat, y: nat)
    requires OwnersMatch(v) && t < |v.pcs| && Allowed(v.sh, b, t) && OwnersStep(v.sh, b, t, q)
    requires x < |b.owners| && y < |b.owners[x]| && b.owners[x][y].Some?
    ensures b.owners[x][y].value < |v.pcs|
  {
    hide HasLock, Quiet;
  }

  lemma {:induction false} UncountedUpdate(pcs: seq<Pc>, t: nat, q: Pc)
    requires t < |pcs|
    ensures Uncounted(pcs[t := q]) + (if pcs[t].Decrement? then 1 else 0) == Uncounted(pcs) + (if q.Decrement? then 1 else 0)
  {
    if t == 0 {
      assert pcs[t := q][1..] == pcs[1..];
    } else {
      UncountedUpdate(pcs[1..], t - 1, q);
      assert pcs[t := q][1..] == pcs[1..][t - 1 := q];
    }
  }

  lemma {:induction false} NoneUncounted(pcs: seq<Pc>)
    requires forall t | 0 <= t < |pcs| :: !pcs[t].Decrement?
    ensures Uncounted(pcs) == 0
  {
    if pcs != [] {
      NoneUncounted(pcs[1..]);
    }
  }

  /** While a thread holds the whole current array, nobody else has passed the check of the hashpower. */
  lemma NobodyInside(v: System, t: nat, u: nat)
    requires SharedOk(v.sh) && OwnersMatch(v) && OwnsCurrent(v.sh, t) && u != t && u < |v.pcs| && PcOk(v.sh, v.pcs[u])
    ensures !v.pcs[u].Migrate? && !v.pcs[u].Decrement? && !v.pcs[u].Free? && !v.pcs[u].Inside? && !v.pcs[u].Freed?
  {
    ThreadHas(v, u);
    if IsInside(v.pcs[u]) {
      InsideOwns(v.sh, v.pcs[u], u);
    }
    hide SharedOk, OwnersMatch, PcOk, Has;
  }

  /** Past the check of the hashpower, and before the release of the first lock. */
  predicate IsInside(pc: Pc) {
    pc.Migrate? || pc.Decrement? || pc.Free? || pc.Inside? || pc.Freed?
  }

  /** Such a thread holds a lock of the current array, and its hashpower is the current one. */
  lemma InsideOwns(a: Shared, pc: Pc, u: nat)
    requires PcOk(a, pc) && IsInside(pc) && Has(a, pc, u)
    ensures pc.gen == a.Last() && pc.task.hp == a.s.hp && |a.owners| > 0
    ensures exists y :: 0 <= y < |a.owners[a.Last()]| && a.owners[a.Last()][y] == Some(u)
  {
    hide TaskOk, LooseOk, MigratedUpTo, Split.AllMigrated, LockInd, Spinning, Has, Distinct;
    if pc.Freed? {
      FreedFacts(a, pc.task, pc.gen, pc.taken, pc.bucket, pc.slot);
      FreedHas(a, pc, u);
    } else {
      InsideHas(a, pc.task, pc.gen, pc.taken, pc, u);
    }
  }

  lemma FreedHas(a: Shared, pc: Pc, u: nat)
    requires pc.Freed? && pc.gen < |a.owners| && pc.gen == a.Last() && pc.taken != [] && Has(a, pc, u)
    requires forall y | 0 <= y < |pc.taken| :: pc.taken[y] < |a.owners[pc.gen]|
    ensures exists y :: 0 <= y < |a.owners[a.Last()]| && a.owners[a.Last()][y] == Some(u)
  {
    assert HasLock(pc, pc.gen, pc.taken[0]);
  }

  lemma InsideHas(a: Shared, task: Task, gen: nat, taken: seq<nat>, pc: Pc, u: nat)
    requires Spinning(a, task, gen, taken) && Checked(a, task, gen, taken) && Has(a, pc, u)
    requires forall y | y in taken :: HasLock(pc, gen, y)
    ensures exists y :: 0 <= y < |a.owners[a.Last()]| && a.owners[a.Last()][y] == Some(u)
  {
    assert taken + [] == taken;
    TakenHas(a, task, gen, taken, [], pc, u);
    hide Spinning, Task.Wanted, HasLock;
  }

  /** All the invariant, from what one step has to show for its own thread. */
  lemma StepInv(v: System, t: nat, b: Shared, q: Pc)
    requires Inv(v) && t < |v.pcs| && SharedOk(b) && PcOk(b, q) && Allowed(v.sh, b, t) && OwnersStep(v.sh, b, t, q)
    requires BornOk(System(b, v.pcs[t := q])) && CountOk(System(b, v.pcs[t := q]))
    ensures Inv(System(b, v.pcs[t := q]))
  {
    hide *;
    InvFacts(v);
    var w := System(b, v.pcs[t := q]);
    OwnersKept(v, t, b, q);
    forall u | 0 <= u < |w.pcs|
      ensures PcOk(b, w.pcs[u])
    {
      if u != t {
        ThreadHas(v, u);
        PcStable(v.sh, b, t, u, v.pcs[u]);
      }
    }
    IsInv(w);
  }

  lemma InvFacts(v: System)
    requires Inv(v)
    ensures SharedOk(v.sh) && (forall t | 0 <= t < |v.pcs| :: PcOk(v.sh, v.pcs[t]))
    ensures OwnersMatch(v) && BornOk(v) && CountOk(v)
  {
    hide SharedOk, PcOk, OwnersMatch, BornOk, CountOk;
  }

  lemma IsInv(v: System)
    requires SharedOk(v.sh) && (forall t | 0 <= t < |v.pcs| :: PcOk(v.sh, v.pcs[t]))
    requires OwnersMatch(v) && BornOk(v) && CountOk(v)
    ensures Inv(v)
  {
    hide SharedOk, PcOk, OwnersMatch, BornOk, CountOk;
  }
}
