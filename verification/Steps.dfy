/** Every step of the protocol keeps the invariant, but for one comparison that comes too late. */
module Steps {
  import opened Bits
  import opened Params
  import opened Hashing
  import opened Rows
  import opened Doubling
  import opened Lazy
  import opened Locks
  import opened State
  import opened Paths
  import opened Records
  import opened PathSearch
  import opened Guards
  import opened Scan
  import opened Protocol
  import opened Exclusion

  // Kinds of steps.

  predicate Plain(pc: Pc) {
    !pc.Decrement? && !pc.Finish? && !pc.Appended?
  }

  ghost predicate SameLocks(a: Shared, p: Pc, q: Pc) {
    forall x, y | 0 <= x < |a.owners| && 0 <= y < |a.owners[x]| :: HasLock(q, x, y) <==> HasLock(p, x, y)
  }

  lemma AllowedSame(a: Shared, b: Shared, t: nat)
    requires SharedOk(a) && |b.owners| == |a.owners| && b == a.(owners := b.owners)
    requires forall x | 0 <= x < |a.owners| :: |b.owners[x]| == |a.owners[x]|
    ensures Allowed(a, b, t)
  {
    hide Good, Replay, RightAnswers, LockInd;
  }

  lemma BornStays(v: System, t: nat, b: Shared, q: Pc)
    requires BornOk(v) && t < |v.pcs| && !v.pcs[t].Appended?
    requires b.born == v.sh.born && b.s.hp == v.sh.s.hp && |b.owners| == |v.sh.owners|
    ensures BornOk(System(b, v.pcs[t := q]))
  {
    var w := System(b, v.pcs[t := q]);
    forall u | Appender(v, u)
      ensures Appender(w, u)
    {
    }
  }

  lemma CountStays(v: System, t: nat, b: Shared, q: Pc)
    requires CountOk(v) && t < |v.pcs| && Plain(v.pcs[t]) && !q.Decrement?
    requires b.remaining == v.sh.remaining && b.s.migrated == v.sh.s.migrated
    ensures CountOk(System(b, v.pcs[t := q]))
  {
    var w := System(b, v.pcs[t := q]);
    UncountedUpdate(v.pcs, t, q);
    if forall u | 0 <= u < |w.pcs| :: !w.pcs[u].Finish? {
      forall u | 0 <= u < |v.pcs|
        ensures !v.pcs[u].Finish?
      {
        assert u != t ==> w.pcs[u] == v.pcs[u];
      }
    }
  }

  lemma MatchOf(v: System, t: nat, x: nat, y: nat)
    requires OwnersMatch(v) && t < |v.pcs| && x < |v.sh.owners| && y < |v.sh.owners[x]|
    ensures v.sh.owners[x][y] == Some(t) <==> HasLock(v.pcs[t], x, y)
  {
    hide HasLock;
  }

  lemma AllowedQuiet(a: Shared, b: Shared, t: nat)
    requires SharedOk(a) && SharedOk(b) && SameLocking(a, b) && Quiet(a, b, t)
    ensures Allowed(a, b, t)
  {
    hide Good, Replay, RightAnswers, Quiet;
  }

  lemma OwnersStepSame(v: System, t: nat, b: Shared, q: Pc)
    requires OwnersMatch(v) && t < |v.pcs| && b.owners == v.sh.owners && SameLocks(v.sh, v.pcs[t], q)
    ensures OwnersStep(v.sh, b, t, q)
  {
    hide HasLock;
    forall x, y | 0 <= x < |v.sh.owners| && 0 <= y < |v.sh.owners[x]|
      ensures v.sh.owners[x][y] == Some(t) <==> HasLock(q, x, y)
    {
      MatchOf(v, t, x, y);
    }
  }

  lemma OwnersStepOne(v: System, t: nat, b: Shared, q: Pc, x: nat, y: nat, who: Option<nat>)
    requires OwnersMatch(v) && t < |v.pcs|
    requires SetOwner(v.sh, b, x, y, who) && who in {None, Some(t)} && v.sh.owners[x][y] in {None, Some(t)}
    requires forall i, j | 0 <= i < |v.sh.owners| && 0 <= j < |v.sh.owners[i]| ::
               HasLock(q, i, j) <==> if i == x && j == y then who == Some(t) else HasLock(v.pcs[t], i, j)
    ensures OwnersStep(v.sh, b, t, q)
  {
    hide HasLock;
    forall i, j | 0 <= i < |b.owners| && 0 <= j < |b.owners[i]|
      ensures b.owners[i][j] == Some(t) <==> HasLock(q, i, j)
    {
      MatchOf(v, t, i, j);
    }
  }

  /** A step that changes nothing shared. */
  lemma KeepLocal(v: System, t: nat, q: Pc)
    requires Inv(v) && t < |v.pcs| && Plain(v.pcs[t]) && !q.Decrement?
    requires PcOk(v.sh, q) && SameLocks(v.sh, v.pcs[t], q)
    ensures Inv(System(v.sh, v.pcs[t := q]))
  {
    InvFacts(v);
    AllowedSame(v.sh, v.sh, t);
    BornStays(v, t, v.sh, q);
    CountStays(v, t, v.sh, q);
    OwnersStepSame(v, t, v.sh, q);
    hide *;
    StepInv(v, t, v.sh, q);
  }

  /** A step that takes or releases one lock. */
  lemma KeepOwner(v: System, t: nat, b: Shared, q: Pc, x: nat, y: nat, who: Option<nat>)
    requires Inv(v) && t < |v.pcs| && Plain(v.pcs[t]) && !q.Decrement?
    requires SetOwner(v.sh, b, x, y, who) && who in {None, Some(t)} && v.sh.owners[x][y] in {None, Some(t)}
    requires PcOk(b, q)
    requires forall i, j | 0 <= i < |v.sh.owners| && 0 <= j < |v.sh.owners[i]| ::
               HasLock(q, i, j) <==> if i == x && j == y then who == Some(t) else HasLock(v.pcs[t], i, j)
    ensures Inv(System(b, v.pcs[t := q]))
  {
    hide Inv, SharedOk, PcOk, OwnersMatch, BornOk, CountOk, HasLock;
    InvFacts(v);
    OwnerSizes(v.sh, b, x, y, who);
    AllowedSame(v.sh, b, t);
    BornStays(v, t, b, q);
    CountStays(v, t, b, q);
    OwnersStepOne(v, t, b, q, x, y, who);
    hide *;
    StepInv(v, t, b, q);
  }

  lemma OwnerSizes(a: Shared, b: Shared, x: nat, y: nat, who: Option<nat>)
    requires SharedOk(a) && SetOwner(a, b, x, y, who)
    ensures SharedOk(b) && |b.owners| == |a.owners| && b == a.(owners := b.owners)
    ensures forall i | 0 <= i < |a.owners| :: |b.owners[i]| == |a.owners[i]|
  {
    hide Good, Replay, RightAnswers;
  }

  /** A step that changes data under locks. */
  lemma KeepData(v: System, t: nat, b: Shared, q: Pc)
    requires Inv(v) && t < |v.pcs| && !v.pcs[t].Appended? && SameLocking(v.sh, b)
    requires SharedOk(b) && PcOk(b, q) && Quiet(v.sh, b, t) && SameLocks(v.sh, v.pcs[t], q)
    requires CountOk(System(b, v.pcs[t := q]))
    ensures Inv(System(b, v.pcs[t := q]))
  {
    hide Inv, SharedOk, PcOk, OwnersMatch, BornOk, CountOk, HasLock;
    InvFacts(v);
    AllowedQuiet(v.sh, b, t);
    BornStays(v, t, b, q);
    OwnersStepSame(v, t, b, q);
    hide *;
    StepInv(v, t, b, q);
  }

  // Taking the locks of a task.

  lemma ReadHashpowerKeeps(v: System, t: nat, b: Shared, q: Pc)
    requires Inv(v) && t < |v.pcs| && ReadHashpower(v.sh, v.pcs[t], b, q)
    ensures Inv(System(b, v.pcs[t := q]))
  {
    hide Inv, SharedOk, OwnersMatch;
    KeepLocal(v, t, q);
  }

  lemma CurrentSize(a: Shared, hp: nat)
    requires SharedOk(a) && hp <= a.s.hp
    ensures |a.owners| == |a.born| >= 1 && |a.owners[a.Last()]| == |a.locks| == |a.s.migrated|
    ensures Min(MaxLocks(), Pow2(hp)) <= |a.owners[a.Last()]| <= MaxLocks()
  {
    Pow2Increasing(hp, a.s.hp);
    hide Represents, LockInd, Replay, RightAnswers;
  }

  lemma FetchLocksKeeps(v: System, t: nat, b: Shared, q: Pc)
    requires Inv(v) && t < |v.pcs| && FetchLocks(v.sh, v.pcs[t], b, q)
    ensures Inv(System(b, v.pcs[t := q]))
  {
    hide Inv, SharedOk, OwnersMatch, Task.Wanted, Task.Linked;
    InvFacts(v);
    var task := v.pcs[t].task;
    CurrentSize(v.sh, task.hp);
    assert [] + task.Wanted() == task.Wanted();
    WantedOk(v.sh, task, |v.sh.owners| - 1);
    KeepLocal(v, t, q);
  }

  lemma TakeLockKeeps(v: System, t: nat, b: Shared, q: Pc)
    requires Inv(v) && t < |v.pcs| && TakeLock(v.sh, v.pcs[t], b, q, t)
    ensures Inv(System(b, v.pcs[t := q]))
  {
    hide Inv, SharedOk, OwnersMatch, Task.Wanted, Task.Linked, LockInd, Split.AllMigrated;
    InvFacts(v);
    var p := v.pcs[t];
    OwnerSizes(v.sh, b, p.gen, p.todo[0], Some(t));
    assert (p.taken + [p.todo[0]]) + p.todo[1..] == p.taken + p.todo;
    assert p.todo[1..] == [] ==> p.taken + [p.todo[0]] == p.taken + p.todo;
    assert forall j :: j in p.taken + [p.todo[0]] <==> j in p.taken || j == p.todo[0];
    KeepOwner(v, t, b, q, p.gen, p.todo[0], Some(t));
  }

  /** A thread that finds the hashpower unchanged has its lock in the current array: nothing was appended or published. */
  lemma CheckPasses(v: System, t: nat)
    requires Inv(v) && t < |v.pcs| && v.pcs[t].Check? && v.sh.s.hp == v.pcs[t].task.hp
    ensures v.pcs[t].gen == v.sh.Last()
  {
    hide *;
    InvFacts(v);
    var p := v.pcs[t];
    assert PcOk(v.sh, p);
    var l := FirstTaken(v.sh, p);
    MatchOf(v, t, p.gen, l);
    if p.gen + 1 < |v.sh.owners| {
      var u := AppenderOf(v, p.gen + 1);
      MatchOf(v, u, p.gen, l);
      AppenderHas(v, u, p.gen, l);
    }
    LastOwner(v.sh);
  }

  lemma LastOwner(a: Shared)
    ensures a.Last() == |a.owners| - 1
  {
  }

  /** A thread about to check the hashpower holds a lock; any newer array was made for a hashpower above the one it read. */
  lemma FirstTaken(a: Shared, p: Pc) returns (l: nat)
    requires PcOk(a, p) && p.Check?
    ensures p.gen < |a.owners| == |a.born| && l < |a.owners[p.gen]| && HasLock(p, p.gen, l)
    ensures p.gen + 1 < |a.owners| ==> p.task.hp < a.born[p.gen + 1]
  {
    hide Task.Wanted, Task.Linked, TaskOk;
    WantedOk(a, p.task, p.gen);
    assert (p.taken + p.todo)[0] == p.taken[0];
    l := p.taken[0];
  }

  /** An array made for a hashpower that is not yet published is the last one, and its maker still holds the one before. */
  lemma AppenderOf(v: System, x: nat) returns (u: nat)
    requires BornOk(v) && 1 <= x < |v.sh.born| == |v.sh.owners| && v.sh.born[x] > v.sh.s.hp
    ensures u < |v.pcs| && x == |v.sh.owners| - 1 && v.pcs[u].Appended? && v.pcs[u].first < x
  {
    var w :| Appender(v, w);
    u := w;
  }

  lemma AppenderHas(v: System, u: nat, x: nat, y: nat)
    requires u < |v.pcs| && v.pcs[u].Appended? && v.pcs[u].first < x + 1
    ensures HasLock(v.pcs[u], x, y)
  {
  }

  lemma CheckHashpowerKeeps(v: System, t: nat, b: Shared, q: Pc)
    requires Inv(v) && t < |v.pcs| && CheckHashpower(v.sh, v.pcs[t], b, q)
    ensures Inv(System(b, v.pcs[t := q]))
  {
    hide Inv, SharedOk, OwnersMatch, Task.Wanted, Task.Linked, LockInd;
    InvFacts(v);
    var p := v.pcs[t];
    WantedOk(v.sh, p.task, p.gen);
    assert p.todo == [] ==> p.taken + p.todo == p.taken;
    assert (p.taken + p.todo)[0] == p.taken[0];
    if v.sh.s.hp == p.task.hp {
      CheckPasses(v, t);
    }
    KeepLocal(v, t, q);
  }

  lemma SkipMigratedKeeps(v: System, t: nat, b: Shared, q: Pc)
    requires Inv(v) && t < |v.pcs| && SkipMigrated(v.sh, v.pcs[t], b, q)
    ensures Inv(System(b, v.pcs[t := q]))
  {
    hide Inv, SharedOk, OwnersMatch, PcOk, SameLocks;
    InvFacts(v);
    SkippedOk(v.sh, v.pcs[t], b, q);
    KeepLocal(v, t, q);
  }

  lemma SkippedOk(a: Shared, p: Pc, b: Shared, q: Pc)
    requires SkipMigrated(a, p, b, q) && PcOk(a, p) && SharedOk(a)
    ensures PcOk(a, q) && SameLocks(a, p, q)
  {
    hide SharedOk, Task.Wanted, Task.Linked, LockInd;
    if p.x < |p.taken| {
      FlagOf(a, p.taken[p.x]);
    }
  }

  lemma ReleaseOneKeeps(v: System, t: nat, b: Shared, q: Pc)
    requires Inv(v) && t < |v.pcs| && ReleaseOne(v.sh, v.pcs[t], b, q)
    ensures Inv(System(b, v.pcs[t := q]))
  {
    hide Inv, SharedOk, OwnersMatch, TaskOk;
    InvFacts(v);
    var p := v.pcs[t];
    if p.taken == [] {
      KeepLocal(v, t, q);
    } else {
      OwnerSizes(v.sh, b, p.gen, p.taken[0], None);
      LooseStable(v.sh, b, p.next);
      MatchOf(v, t, p.gen, p.taken[0]);
      DistinctRest(p.taken);
      KeepOwner(v, t, b, q, p.gen, p.taken[0], None);
    }
  }

  lemma DistinctRest(taken: seq<nat>)
    requires Distinct(taken) && taken != []
    ensures Distinct(taken[1..]) && forall j :: j in taken[1..] <==> j in taken && j != taken[0]
  {
    forall j
      ensures j in taken[1..] <==> j in taken && j != taken[0]
    {
      if j in taken && j != taken[0] {
        var x :| 0 <= x < |taken| && taken[x] == j;
        assert taken[1..][x - 1] == j;
      }
    }
  }

  lemma InvokeKeeps(v: System, t: nat, b: Shared, q: Pc, op: Op)
    requires Inv(v) && t < |v.pcs| && Invoke(v.sh, v.pcs[t], b, q, op)
    ensures Inv(System(b, v.pcs[t := q]))
  {
    hide Inv, SharedOk, OwnersMatch;
    KeepLocal(v, t, q);
  }

  lemma ReturnKeeps(v: System, t: nat, b: Shared, q: Pc)
    requires Inv(v) && t < |v.pcs| && Return(v.sh, v.pcs[t], b, q)
    ensures Inv(System(b, v.pcs[t := q]))
  {
    hide Inv, SharedOk, OwnersMatch;
    KeepLocal(v, t, q);
  }

  // The search.

  lemma SearchOnKeeps(v: System, t: nat, b: Shared, q: Pc)
    requires Inv(v) && t < |v.pcs| && SearchOn(v.sh, v.pcs[t], b, q)
    ensures Inv(System(b, v.pcs[t := q]))
  {
    hide Inv, SharedOk, OwnersMatch, SearchOk, Home, Other;
    InvFacts(v);
    KeepLocal(v, t, q);
  }

  /** The path that a search returns is linked, whatever other threads did while it was looking. */
  lemma SearchEndsKeeps(v: System, t: nat, b: Shared, q: Pc)
    requires Inv(v) && t < |v.pcs| && SearchEnds(v.sh, v.pcs[t], b, q)
    ensures Inv(System(b, v.pcs[t := q]))
  {
    hide Inv, SharedOk, OwnersMatch, Records.Linked, Home, Other;
    InvFacts(v);
    KeepLocal(v, t, q);
  }

  lemma SearchFailsKeeps(v: System, t: nat, b: Shared, q: Pc)
    requires Inv(v) && t < |v.pcs| && SearchFails(v.sh, v.pcs[t], b, q)
    ensures Inv(System(b, v.pcs[t := q]))
  {
    hide Inv, SharedOk, OwnersMatch;
    InvFacts(v);
    KeepLocal(v, t, q);
  }

  // Migration under a lock.

  /** The lock that a thread is migrating is in the current array and the thread's own. */
  lemma MigratingHas(v: System, t: nat, x: nat)
    requires Inv(v) && t < |v.pcs| && (v.pcs[t].Migrate? || v.pcs[t].Decrement? || v.pcs[t].Free? || v.pcs[t].Inside?)
    requires x < |v.pcs[t].taken|
    ensures |v.sh.owners| > 0 && v.pcs[t].gen == v.sh.Last() && |v.sh.owners[v.sh.Last()]| == |v.sh.locks| == |v.sh.s.migrated|
    ensures v.pcs[t].taken[x] < |v.sh.locks| && v.sh.owners[v.sh.Last()][v.pcs[t].taken[x]] == Some(t)
  {
    hide Inv, OwnersMatch, Task.Wanted, Task.Linked, LockInd, Represents, Replay, RightAnswers, TaskOk;
    InvFacts(v);
    var p := v.pcs[t];
    WantedOk(v.sh, p.task, p.gen);
    ThreadHas(v, t);
    assert HasLock(p, p.gen, p.taken[x]);
  }

  /** Old buckets are read only while they are there. */
  lemma OldBucketsThere(v: System, t: nat)
    requires Inv(v) && t < |v.pcs| && v.pcs[t].Migrate? && v.pcs[t].x < |v.pcs[t].taken|
    requires v.pcs[t].taken[v.pcs[t].x] < |v.sh.locks| && !v.sh.locks[v.pcs[t].taken[v.pcs[t].x]].isMigrated
    ensures v.sh.s.PastReadable() && |v.sh.s.past| > 0
  {
    hide OwnersMatch, PcOk, Represents, Replay, RightAnswers, LockInd, Placed;
    assert !v.sh.s.migrated[v.pcs[t].taken[v.pcs[t].x]];
  }

  lemma NoFinisher(v: System, t: nat)
    requires Inv(v) && t < |v.pcs| && IsInside(v.pcs[t])
    ensures forall u | 0 <= u < |v.pcs| :: !v.pcs[u].Finish?
  {
    hide Inv, SharedOk, PcOk, OwnersMatch;
    InvFacts(v);
    forall u | 0 <= u < |v.pcs| && u != t
      ensures !v.pcs[u].Finish?
    {
      if v.pcs[u].Finish? {
        ThreadHas(v, u);
        HasAllOwns(v.sh, v.pcs[u], u);
        NobodyInside(v, u, t);
      }
    }
  }

  lemma StripeOk(a: Shared, b: Shared, l: nat)
    requires SharedOk(a) && StripeMoved(a, b, l)
    ensures SharedOk(b) && SameLocking(a, b) && b.remaining == a.remaining && b.s.past == a.s.past && |b.s.cur| == |a.s.cur|
    ensures |b.locks| == |a.locks| == |a.s.migrated| && b.s.migrated == a.s.migrated[l := true]
    ensures forall i | 0 <= i < |a.s.cur| && b.s.cur[i] != a.s.cur[i] :: LockInd(i) == l
  {
    hide *;
    StripeIs(a, b, l);
    GoodRehash(a.s, a.locks, a.m, l);
    SharedWith(a, b);
  }

  lemma StripeIs(a: Shared, b: Shared, l: nat)
    requires SharedOk(a) && StripeMoved(a, b, l)
    ensures Good(a.s, a.locks, a.m) && b.s == a.s.Rehash(l) && b.locks == MarkMigrated(a.locks, l)
    ensures b.owners == a.owners && b.born == a.born && b.m == a.m && b.log == a.log && b.remaining == a.remaining
    ensures SameLocking(a, b) && |b.locks| == |a.locks| == |a.s.migrated| && l < |a.locks|
  {
    hide Good, Split.Wf, Split.Rehash, Replay, RightAnswers;
  }

  lemma SharedWith(a: Shared, b: Shared)
    requires SharedOk(a) && Good(b.s, b.locks, b.m) && |b.locks| == |a.locks|
    requires b.owners == a.owners && b.born == a.born && b.log == a.log && b.m == a.m
    ensures SharedOk(b)
  {
    hide Good, Replay, RightAnswers;
  }

  lemma StripeQuiet(a: Shared, b: Shared, l: nat, t: nat)
    requires SharedOk(a) && StripeMoved(a, b, l) && l < |a.owners[a.Last()]| && a.owners[a.Last()][l] == Some(t)
    ensures Quiet(a, b, t)
  {
    StripeOk(a, b, l);
    hide Good, Replay, RightAnswers, StripeMoved, LockInd;
  }

  lemma MigrateOneKeeps(v: System, t: nat, b: Shared, q: Pc)
    requires Inv(v) && t < |v.pcs| && MigrateOne(v.sh, v.pcs[t], b, q)
    ensures Inv(System(b, v.pcs[t := q]))
  {
    hide Inv, SharedOk, OwnersMatch, Task.Wanted, Task.Linked, LockInd, Split.AllMigrated, StripeMoved, Quiet, TaskOk;
    InvFacts(v);
    var p := v.pcs[t];
    var l := p.taken[p.x];
    MigratingHas(v, t, p.x);
    StripeOk(v.sh, b, l);
    StripeQuiet(v.sh, b, l, t);
    AllowedQuiet(v.sh, b, t);
    NoFinisher(v, t);
    UncountedUpdate(v.pcs, t, q);
    FlagOf(v.sh, l);
    UnmigratedUpdate(v.sh.s.migrated, l);
    SpinningStable(v.sh, b, p.task, p.gen, p.taken);
    assert MigratedUpTo(b, p.taken, p.x + 1) by {
      hide Allowed;
    }
    KeepData(v, t, b, q);
  }

  lemma FlagOf(a: Shared, l: nat)
    requires SharedOk(a) && l < |a.locks|
    ensures |a.s.migrated| == |a.locks| && a.s.migrated[l] == a.locks[l].isMigrated
  {
    hide Represents, Replay, RightAnswers, LockInd;
  }

  lemma SomeUncounted(pcs: seq<Pc>, t: nat)
    requires t < |pcs| && pcs[t].Decrement?
    ensures Uncounted(pcs) >= 1
  {
    UncountedUpdate(pcs, t, Idle);
  }

  /** The counter is right for every thread that is about to decrement it. */
  lemma CountNow(v: System, t: nat)
    requires Inv(v) && t < |v.pcs| && IsInside(v.pcs[t])
    ensures v.sh.remaining == Unmigrated(v.sh.s.migrated) + Uncounted(v.pcs)
  {
    NoFinisher(v, t);
    hide SharedOk, PcOk, OwnersMatch;
  }

  /** So it is positive whenever a thread is about to decrement it, and after the last stripe it is 1. */
  lemma CountIsPositive(v: System, t: nat)
    requires Inv(v) && t < |v.pcs| && v.pcs[t].Decrement?
    ensures v.sh.remaining >= 1
    ensures v.sh.remaining == 1 ==> v.sh.s.AllMigrated() && forall u | 0 <= u < |v.pcs| && u != t :: !v.pcs[u].Decrement?
  {
    CountNow(v, t);
    UncountedUpdate(v.pcs, t, Idle);
    UnmigratedZero(v.sh.s.migrated);
    hide Inv;
    if v.sh.remaining == 1 {
      forall u | 0 <= u < |v.pcs| && u != t
        ensures !v.pcs[u].Decrement?
      {
        if v.pcs[u].Decrement? {
          SomeUncounted(v.pcs[t := Idle], u);
        }
      }
    }
  }

  lemma DecrementRemainingKeeps(v: System, t: nat, b: Shared, q: Pc)
    requires Inv(v) && t < |v.pcs| && DecrementRemaining(v.sh, v.pcs[t], b, q)
    ensures Inv(System(b, v.pcs[t := q]))
  {
    hide Inv, SharedOk, OwnersMatch, Task.Wanted, Task.Linked, LockInd, MigratedUpTo;
    InvFacts(v);
    var p := v.pcs[t];
    CountNow(v, t);
    SomeUncounted(v.pcs, t);
    UnmigratedZero(v.sh.s.migrated);
    UncountedUpdate(v.pcs, t, q);
    ThreadHas(v, t);
    InsideOwns(v.sh, p, t);
    SharedStays(v.sh, b);
    assert MigratedUpTo(b, p.taken, p.x + 1) by { hide *; MigratedSame(v.sh, b, p.taken, p.x + 1); }
    KeepData(v, t, b, q);
  }

  lemma MigratedSame(a: Shared, b: Shared, taken: seq<nat>, x: nat)
    requires MigratedUpTo(a, taken, x) && b.s.migrated == a.s.migrated
    ensures MigratedUpTo(b, taken, x)
  {
  }

  lemma SharedStays(a: Shared, b: Shared)
    requires SharedOk(a) && b == a.(remaining := b.remaining)
    ensures SharedOk(b)
  {
    hide Good, Replay, RightAnswers;
  }

  lemma FreeOldKeeps(v: System, t: nat, b: Shared, q: Pc)
    requires Inv(v) && t < |v.pcs| && FreeOld(v.sh, v.pcs[t], b, q)
    ensures Inv(System(b, v.pcs[t := q]))
  {
    hide Inv, SharedOk, OwnersMatch, Task.Wanted, Task.Linked, LockInd, MigratedUpTo;
    InvFacts(v);
    var p := v.pcs[t];
    CountNow(v, t);
    UncountedUpdate(v.pcs, t, q);
    ThreadHas(v, t);
    InsideOwns(v.sh, p, t);
    FreedShared(v.sh, b);
    assert MigratedUpTo(b, p.taken, p.x + 1) by { hide *; MigratedSame(v.sh, b, p.taken, p.x + 1); }
    KeepData(v, t, b, q);
  }

  lemma FreedShared(a: Shared, b: Shared)
    requires SharedOk(a) && a.s.AllMigrated() && b == a.(s := a.s.(past := []))
    ensures SharedOk(b)
  {
    GoodFree(a.s, a.locks, a.m) by { hide Good, Replay, RightAnswers; }
    hide Good, Replay, RightAnswers;
    SharedWith(a, b);
  }

  // Operations in their critical sections.

  /** What cuckoo_find returns under the locks of the key's two buckets is what the whole map says. */
  lemma FoundIsRight(a: Shared, k: Key, pos: Option<(nat, nat)>)
    requires SharedOk(a) && FoundAt(a.s.cur, Home(a.s.hp, k), Other(a.s.hp, k), k, pos)
    requires LockInd(Home(a.s.hp, k)) < |a.s.migrated| && a.s.migrated[LockInd(Home(a.s.hp, k))]
    requires LockInd(Other(a.s.hp, k)) < |a.s.migrated| && a.s.migrated[LockInd(Other(a.s.hp, k))]
    ensures pos.None? <==> k !in a.m
    ensures pos.Some? ==>
              && LiveAt(a.s.cur, pos.value.0, pos.value.1) && a.s.cur[pos.value.0][pos.value.1].key == k
              && (pos.value.0 == Home(a.s.hp, k) || pos.value.0 == Other(a.s.hp, k))
              && k in a.m && a.m[k] == a.s.cur[pos.value.0][pos.value.1].value
  {
    var i1, i2 := Home(a.s.hp, k), Other(a.s.hp, k);
    Lookup(a.s, a.locks, a.m, k);
    BucketFacts(a.s, a.locks, a.m, i1);
    BucketFacts(a.s, a.locks, a.m, i2);
    hide Good, Home, Other, PartialOf, LockInd, Replay, RightAnswers;
    if pos.None? {
      NoMatchAnywhere(a.s.cur[i1], PartialOf(k), k);
      NoMatchAnywhere(a.s.cur[i2], PartialOf(k), k);
      NotInBucket(a.s.cur, i1, PartialOf(k), k);
      NotInBucket(a.s.cur, i2, PartialOf(k), k);
    } else {
      assert LiveAt(a.s.cur, pos.value.0, pos.value.1);
    }
  }

  lemma NoMatchAnywhere(b: Bucket, partial: Partial, k: Key)
    requires NoMatch(b, partial, k)
    ensures forall j :: !Matches(b, j, partial, k)
  {
  }

  /** An effect with the right answer extends the log. */
  lemma LogExtends(a: Shared, b: Shared, op: Op, answer: Option<Value>)
    requires a.m == Replay(a.log) && RightAnswers(a.log) && Logged(a, b, op, answer) && answer == Answer(op, a.m)
    ensures b.m == Replay(b.log) && RightAnswers(b.log)
  {
    var n := |a.log|;
    assert b.log[..n] == a.log;
    forall x | 0 <= x < n
      ensures b.log[x].answer == Answer(b.log[x].op, Replay(b.log[..x]))
    {
      assert b.log[..x] == a.log[..x];
    }
    hide Effect, Answer;
  }

  lemma SharedLogged(a: Shared, b: Shared, op: Op, answer: Option<Value>)
    requires SharedOk(a) && Good(b.s, b.locks, b.m) && |b.locks| == |a.locks| && SameLocking(a, b)
    requires Logged(a, b, op, answer) && answer == Answer(op, a.m)
    ensures SharedOk(b)
  {
    hide Good, Replay, RightAnswers, Logged, Answer, Effect;
    LogExtends(a, b, op, answer);
  }

  /** Changing or erasing the value found has exactly the operation's effect. */
  lemma ChangedOk(a: Shared, b: Shared, op: Op, i: nat, j: nat)
    requires SharedOk(a) && ChangedAt(a, b, op, i, j) && a.s.cur[i][j].key == op.key
    requires LockInd(i) < |a.s.migrated| && a.s.migrated[LockInd(i)]
    requires op.key in a.m && a.m[op.key] == a.s.cur[i][j].value
    ensures SharedOk(b)
  {
    var v := op.f(a.s.cur[i][j].value);
    if v.Some? {
      GoodSet(a.s, a.locks, a.m, i, j, v.value);
    } else {
      GoodRemove(a.s, a.locks, a.m, i, j);
    }
    hide Good, Replay, RightAnswers, LockInd, Put;
    assert Good(b.s, b.locks, b.m);
    SharedLogged(a, b, op, Some(a.s.cur[i][j].value));
  }

  lemma AddedOk(a: Shared, b: Shared, op: Op, i: nat, j: nat)
    requires SharedOk(a) && AddedAt(a, b, op, i, j) && op.key !in a.m
    requires LockInd(i) < |a.s.migrated| && a.s.migrated[LockInd(i)]
    requires a.s.cur[i][j].Empty? && j < SLOTS && IsCandidate(a.s.hp, op.key, i)
    ensures SharedOk(b)
  {
    hide Good, Replay, RightAnswers, LockInd, Put, Home, Other, PartialOf, Split.Wf;
    CurrentShape(a);
    if op.kept.Some? {
      GoodAdd(a.s, a.locks, a.m, i, j, op.key, op.kept.value);
    } else {
      assert a.m - {op.key} == a.m;
    }
    assert Good(b.s, b.locks, b.m);
    SharedLogged(a, b, op, None);
  }

  lemma CurrentShape(a: Shared)
    requires SharedOk(a)
    ensures Good(a.s, a.locks, a.m) && a.s.Wf() && |a.s.cur| == HashSize(a.s.hp) && a.s.migrated == Flags(a.locks)
    ensures forall i | 0 <= i < |a.s.cur| :: |a.s.cur[i]| == SLOTS && LockInd(i) < |a.locks|
  {
    hide Represents, LockInd, Replay, RightAnswers;
  }

  lemma NothingOk(a: Shared, b: Shared, op: Op)
    requires SharedOk(a) && NothingToDo(a, b, op) && op.key !in a.m
    ensures SharedOk(b)
  {
    hide Good, Replay, RightAnswers;
    SharedLogged(a, b, op, None);
  }

  /** A write to one bucket under a lock of t. */
  lemma PutQuiet(a: Shared, b: Shared, t: nat, i: nat, j: nat, x: Slot)
    requires SharedOk(a) && SameLocking(a, b) && i < |a.s.cur| && j < |a.s.cur[i]|
    requires b.s == a.s || b.s == a.s.(cur := Put(a.s.cur, i, j, x))
    requires |b.locks| == |a.locks| && b.remaining == a.remaining
    requires LockInd(i) < |a.owners[a.Last()]| && a.owners[a.Last()][LockInd(i)] == Some(t)
    ensures Quiet(a, b, t)
  {
    hide Good, Replay, RightAnswers, LockInd;
  }

  /** The locks wanted for a task are those of the buckets it works on. */
  lemma WantedHas(task: Task)
    requires task.Linked()
    ensures task.goal.Operate? || task.goal.Settle? || (task.goal.Move? && task.goal.d == 1) ==>
              LockInd(task.First()) in task.Wanted() && LockInd(task.Second()) in task.Wanted()
    ensures task.goal.Move? ==>
              && 1 <= task.goal.d < |task.goal.path|
              && LockInd(task.goal.path[task.goal.d - 1].bucket) in task.Wanted()
              && LockInd(task.goal.path[task.goal.d].bucket) in task.Wanted()
  {
    hide LockInd, Home, Other, TakenTwo, TakenThree, AltIndex, PartialKey;
    match task.goal {
      case Operate => TwoGuardsOwnTheirLocks(LockInd(task.First()), LockInd(task.Second()));
      case Settle(_) => TwoGuardsOwnTheirLocks(LockInd(task.First()), LockInd(task.Second()));
      case Look(_) =>
      case Move(path, depth, d) =>
        if d == 1 {
          ThreeGuardsOwnTheirLocks(LockInd(task.First()), LockInd(task.Second()), LockInd(path[1].bucket));
        } else {
          TwoGuardsOwnTheirLocks(LockInd(path[d - 1].bucket), LockInd(path[d].bucket));
        }
    }
  }

  /** And no others. */
  lemma WantedOnly(task: Task, l: nat)
    requires task.Linked() && l in task.Wanted()
    ensures match task.goal
            case Operate => l == LockInd(task.First()) || l == LockInd(task.Second())
            case Settle(_) => l == LockInd(task.First()) || l == LockInd(task.Second())
            case Look(s) => l == LockInd(LooksAt(s))
            case Move(path, _, d) =>
              || (d < |path| && (l == LockInd(path[d - 1].bucket) || l == LockInd(path[d].bucket)))
              || (d == 1 && (l == LockInd(task.First()) || l == LockInd(task.Second())))
  {
    hide LockInd, Home, Other, TakenTwo, TakenThree, AltIndex, PartialKey;
    match task.goal {
      case Operate => TwoGuardsOwnTheirLocks(LockInd(task.First()), LockInd(task.Second()));
      case Settle(_) => TwoGuardsOwnTheirLocks(LockInd(task.First()), LockInd(task.Second()));
      case Look(_) =>
      case Move(path, depth, d) =>
        if d == 1 {
          ThreeGuardsOwnTheirLocks(LockInd(task.First()), LockInd(task.Second()), LockInd(path[1].bucket));
        } else {
          TwoGuardsOwnTheirLocks(LockInd(path[d - 1].bucket), LockInd(path[d].bucket));
        }
    }
  }

  /** In a critical section all locks taken are the thread's own, in the current array, and migrated. */
  lemma InsideLock(v: System, t: nat, l: nat)
    requires Inv(v) && t < |v.pcs| && v.pcs[t].Inside? && l in v.pcs[t].taken
    ensures |v.sh.owners| > 0 && l < |v.sh.owners[v.sh.Last()]| && v.sh.owners[v.sh.Last()][l] == Some(t)
    ensures l < |v.sh.s.migrated| && v.sh.s.migrated[l]
  {
    hide Inv, SharedOk, OwnersMatch, Spinning, Checked;
    InvFacts(v);
    var x :| 0 <= x < |v.pcs[t].taken| && v.pcs[t].taken[x] == l;
    MigratingHas(v, t, x);
  }

  lemma InsideFacts(v: System, t: nat)
    requires Inv(v) && t < |v.pcs| && v.pcs[t].Inside?
    ensures var p := v.pcs[t];
            && p.task.hp == v.sh.s.hp && p.taken == p.task.Wanted() && TaskOk(v.sh, p.task) && p.task.Linked()
            && p.gen < |v.sh.owners| && Distinct(p.taken) && forall y | 0 <= y < |p.taken| :: p.taken[y] < |v.sh.owners[p.gen]|
  {
    hide Inv, SharedOk, OwnersMatch, Task.Wanted, Task.Linked, LockInd, MigratedUpTo;
    InvFacts(v);
    WantedOk(v.sh, v.pcs[t].task, v.pcs[t].gen);
  }

  /** A step from a critical section to the release of its locks. */
  lemma LeaveOk(v: System, t: nat, b: Shared, next: Pc)
    requires Inv(v) && t < |v.pcs| && v.pcs[t].Inside? && b.owners == v.sh.owners && LooseOk(b, next)
    ensures PcOk(b, Release(v.pcs[t].gen, v.pcs[t].taken, next))
    ensures SameLocks(v.sh, v.pcs[t], Release(v.pcs[t].gen, v.pcs[t].taken, next))
  {
    hide Inv, LooseOk, Distinct, TaskOk, Task.Wanted, Task.Linked;
    InsideFacts(v, t);
    SameHeld(v.pcs[t], Release(v.pcs[t].gen, v.pcs[t].taken, next), v.sh);
  }

  /** Two places with the same locks of one array. */
  lemma SameHeld(p: Pc, q: Pc, a: Shared)
    requires (p.Inside? || p.Freed?) && q.Release? && q.gen == p.gen && q.taken == p.taken
    ensures SameLocks(a, p, q)
  {
  }

  /** The two buckets of the key may be read and written in the critical section for them. */
  ghost predicate KeyReady(a: Shared, t: nat, k: Key) {
    var l1, l2 := LockInd(Home(a.s.hp, k)), LockInd(Other(a.s.hp, k));
    && l1 < |a.s.migrated| && a.s.migrated[l1] && l2 < |a.s.migrated| && a.s.migrated[l2]
    && |a.owners| > 0 && l1 < |a.owners[a.Last()]| && l2 < |a.owners[a.Last()]|
    && a.owners[a.Last()][l1] == Some(t) && a.owners[a.Last()][l2] == Some(t)
  }

  lemma KeyIsReady(v: System, t: nat)
    requires Inv(v) && t < |v.pcs| && v.pcs[t].Inside?
    requires v.pcs[t].task.goal.Operate? || v.pcs[t].task.goal.Settle? || (v.pcs[t].task.goal.Move? && v.pcs[t].task.goal.d == 1)
    ensures KeyReady(v.sh, t, v.pcs[t].task.op.key) && v.pcs[t].task.hp == v.sh.s.hp
  {
    hide Inv, Task.Wanted, Task.Linked, LockInd, Home, Other, TaskOk;
    var p := v.pcs[t];
    InsideFacts(v, t);
    WantedHas(p.task);
    InsideLock(v, t, LockInd(p.task.First()));
    InsideLock(v, t, LockInd(p.task.Second()));
  }

  /** The operation finds its key and applies its functor. */
  lemma OperateFound(v: System, t: nat, b: Shared, q: Pc, i: nat, j: nat)
    requires Inv(v) && t < |v.pcs| && (v.pcs[t].Inside? || v.pcs[t].Freed?) && v.pcs[t].task.hp == v.sh.s.hp
    requires var p := v.pcs[t];
             && KeyReady(v.sh, t, p.task.op.key)
             && FoundAt(v.sh.s.cur, p.task.First(), p.task.Second(), p.task.op.key, Some((i, j)))
             && ChangedAt(v.sh, b, p.task.op, i, j) && PcOk(b, q) && SameLocks(v.sh, p, q) && !q.Decrement?
    ensures Inv(System(b, v.pcs[t := q]))
  {
    hide Inv, SharedOk, OwnersMatch, ChangedAt, LockInd, Home, Other, PcOk, Quiet, SameLocks, FoundAt;
    InvFacts(v);
    FoundIsRight(v.sh, v.pcs[t].task.op.key, Some((i, j)));
    ChangedOk(v.sh, b, v.pcs[t].task.op, i, j);
    ChangedQuiet(v.sh, b, t, v.pcs[t].task.op, i, j);
    KeepInside(v, t, b, q);
  }

  /** The key is absent and the new pair goes to a free slot of one of its buckets. */
  lemma OperateAdds(v: System, t: nat, b: Shared, q: Pc, i: nat, j: nat)
    requires Inv(v) && t < |v.pcs| && (v.pcs[t].Inside? || v.pcs[t].Freed?) && v.pcs[t].task.hp == v.sh.s.hp
    requires var p := v.pcs[t];
             && KeyReady(v.sh, t, p.task.op.key)
             && FoundAt(v.sh.s.cur, p.task.First(), p.task.Second(), p.task.op.key, None)
             && (i == p.task.First() || i == p.task.Second())
             && i < |v.sh.s.cur| && j < |v.sh.s.cur[i]| && v.sh.s.cur[i][j].Empty?
             && AddedAt(v.sh, b, p.task.op, i, j) && PcOk(b, q) && SameLocks(v.sh, p, q) && !q.Decrement?
    ensures Inv(System(b, v.pcs[t := q]))
  {
    hide Inv, SharedOk, OwnersMatch, AddedAt, LockInd, Home, Other, PcOk, Quiet, SameLocks, FoundAt, Split.Wf;
    InvFacts(v);
    CurrentShape(v.sh);
    FoundIsRight(v.sh, v.pcs[t].task.op.key, None);
    AddedOk(v.sh, b, v.pcs[t].task.op, i, j);
    AddedQuiet(v.sh, b, t, v.pcs[t].task.op, i, j);
    KeepInside(v, t, b, q);
  }

  lemma OperateNothing(v: System, t: nat, b: Shared, q: Pc)
    requires Inv(v) && t < |v.pcs| && v.pcs[t].Inside? && v.pcs[t].task.hp == v.sh.s.hp
    requires var p := v.pcs[t];
             && KeyReady(v.sh, t, p.task.op.key)
             && FoundAt(v.sh.s.cur, p.task.First(), p.task.Second(), p.task.op.key, None)
             && NothingToDo(v.sh, b, p.task.op) && PcOk(b, q) && SameLocks(v.sh, p, q) && !q.Decrement?
    ensures Inv(System(b, v.pcs[t := q]))
  {
    hide Inv, SharedOk, OwnersMatch, NothingToDo, LockInd, Home, Other, PcOk, Quiet, SameLocks, FoundAt;
    InvFacts(v);
    FoundIsRight(v.sh, v.pcs[t].task.op.key, None);
    NothingOk(v.sh, b, v.pcs[t].task.op);
    NothingQuiet(v.sh, b, t, v.pcs[t].task.op);
    KeepInside(v, t, b, q);
  }

  lemma OperateInsideKeeps(v: System, t: nat, b: Shared, q: Pc, pos: Option<(nat, nat)>, free: Option<(nat, nat)>)
    requires Inv(v) && t < |v.pcs| && OperateInside(v.sh, v.pcs[t], b, q, pos, free)
    ensures Inv(System(b, v.pcs[t := q]))
  {
    hide Inv, SharedOk, OwnersMatch, FoundAt, Task.Wanted, Task.Linked, LockInd, Home, Other;
    hide Full, PcOk, Quiet, SameLocks, KeyReady, Logged;
    var p := v.pcs[t];
    KeyIsReady(v, t);
    InsideFacts(v, t);
    OwnersStay(v.sh, p, b, q, pos, free);
    LooseIs(v.sh, b, p, q.next);
    LeaveOk(v, t, b, q.next);
    if pos.Some? {
      OperateFound(v, t, b, q, pos.value.0, pos.value.1);
    } else if p.task.op.Access? {
      OperateNothing(v, t, b, q);
    } else if free.Some? {
      OperateAdds(v, t, b, q, free.value.0, free.value.1);
    } else {
      KeepLocal(v, t, q);
    }
  }

  lemma OwnersStay(a: Shared, p: Pc, b: Shared, q: Pc, pos: Option<(nat, nat)>, free: Option<(nat, nat)>)
    requires OperateInside(a, p, b, q, pos, free)
    ensures b.owners == a.owners && b.s.hp == a.s.hp && q == Release(p.gen, p.taken, q.next)
    ensures q.next.Done? || (q.next == SearchAnew(p.task) && p.task.op.Uprase?)
  {
    hide FoundAt, Full, Logged, LockInd, Home, Other;
  }

  /** Data that a critical section has changed, without touching flags or counts of stripes. */
  lemma KeepInside(v: System, t: nat, b: Shared, q: Pc)
    requires Inv(v) && t < |v.pcs| && (v.pcs[t].Inside? || v.pcs[t].Freed?) && SameLocking(v.sh, b)
    requires b.remaining == v.sh.remaining && b.s.migrated == v.sh.s.migrated
    requires SharedOk(b) && PcOk(b, q) && Quiet(v.sh, b, t) && SameLocks(v.sh, v.pcs[t], q) && !q.Decrement?
    ensures Inv(System(b, v.pcs[t := q]))
  {
    hide Inv, SharedOk, OwnersMatch, PcOk, Quiet, SameLocks;
    InvFacts(v);
    CountStays(v, t, b, q);
    KeepData(v, t, b, q);
  }

  lemma LooseIs(a: Shared, b: Shared, p: Pc, next: Pc)
    requires p.Inside? && TaskOk(a, p.task) && p.task.hp == a.s.hp && b.s.hp == a.s.hp
    requires next.Done? || (next == SearchAnew(p.task) && p.task.op.Uprase?)
    ensures LooseOk(b, next)
  {
    hide Task.Linked, SearchOk;
    AltOfCandidate(p.task.hp, p.task.op.key, p.task.First());
    StartOk(p.task.hp, p.task.First(), p.task.Second());
    hide Home, Other;
  }

  lemma ChangedQuiet(a: Shared, b: Shared, t: nat, op: Op, i: nat, j: nat)
    requires SharedOk(a) && ChangedAt(a, b, op, i, j)
    requires LockInd(i) < |a.owners[a.Last()]| && a.owners[a.Last()][LockInd(i)] == Some(t)
    ensures Quiet(a, b, t) && SameLocking(a, b) && b.remaining == a.remaining && b.s.migrated == a.s.migrated
  {
    hide SharedOk, LockInd, Quiet, Logged;
    var v := op.f(a.s.cur[i][j].value);
    PutQuiet(a, b, t, i, j, if v.Some? then a.s.cur[i][j].(value := v.value) else Empty);
  }

  lemma AddedQuiet(a: Shared, b: Shared, t: nat, op: Op, i: nat, j: nat)
    requires SharedOk(a) && AddedAt(a, b, op, i, j)
    requires LockInd(i) < |a.owners[a.Last()]| && a.owners[a.Last()][LockInd(i)] == Some(t)
    ensures Quiet(a, b, t) && SameLocking(a, b) && b.remaining == a.remaining && b.s.migrated == a.s.migrated
  {
    hide SharedOk, LockInd, Quiet, Logged, PartialOf;
    PutQuiet(a, b, t, i, j, if op.kept.Some? then Live(PartialOf(op.key), op.key, op.kept.value) else Empty);
  }

  lemma NothingQuiet(a: Shared, b: Shared, t: nat, op: Op)
    requires SharedOk(a) && NothingToDo(a, b, op)
    ensures Quiet(a, b, t) && SameLocking(a, b) && b.remaining == a.remaining && b.s.migrated == a.s.migrated
  {
    hide Good, Replay, RightAnswers, LockInd;
  }

  lemma LookInsideKeeps(v: System, t: nat, b: Shared, q: Pc)
    requires Inv(v) && t < |v.pcs| && LookInside(v.sh, v.pcs[t], b, q)
    ensures Inv(System(b, v.pcs[t := q]))
  {
    hide Inv, SharedOk, OwnersMatch, PcOk, SameLocks, SearchOk, Next, Looking, LooksAt, Task.Wanted, Home, Other;
    InsideFacts(v, t);
    var task, s := v.pcs[t].task, v.pcs[t].task.goal.search;
    LookIsOk(task, s, v.sh.s.cur[LooksAt(s)]);
    LeaveOk(v, t, b, q.next);
    KeepLocal(v, t, q);
  }

  /** Whatever the bucket contains, the search stays in order. */
  lemma LookIsOk(task: Task, s: Search, b: Bucket)
    requires task.goal == Look(s) && task.Linked() && |b| == SLOTS
    ensures SearchOk(task.hp, task.First(), task.Second(), Next(task.hp, task.First(), task.Second(), s, b))
  {
    AltOfCandidate(task.hp, task.op.key, task.First());
    hide Home, Other, SearchOk, Next, Looking;
    NextOk(task.hp, task.First(), task.Second(), s, b);
  }

  // Displacements.

  /** A displacement that passed its checks under the locks of both buckets, however stale its path, keeps the map. */
  lemma MovedOk(a: Shared, b: Shared, from: CuckooRecord, to: CuckooRecord)
    requires SharedOk(a) && from.bucket < |a.s.cur| && to.bucket < |a.s.cur|
    requires from.slot < |a.s.cur[from.bucket]| && to.slot < |a.s.cur[to.bucket]| && MayMove(a.s.cur, from, to)
    requires from.hv.partial == PartialKey(from.hv.hash) && to.bucket == AltIndex(a.s.hp, from.hv.partial, from.bucket)
    requires LockInd(from.bucket) < |a.s.migrated| && a.s.migrated[LockInd(from.bucket)]
    requires LockInd(to.bucket) < |a.s.migrated| && a.s.migrated[LockInd(to.bucket)]
    requires b == a.(s := a.s.(cur := Displaced(a.s.cur, from.bucket, from.slot, to.bucket, to.slot)))
    ensures SharedOk(b) && SameLocking(a, b)
  {
    hide Good, Replay, RightAnswers, LockInd, AltIndex, PartialKey, Displaced, Split.Wf;
    CurrentShape(a);
    BucketFacts(a.s, a.locks, a.m, from.bucket);
    assert LiveAt(a.s.cur, from.bucket, from.slot);
    GoodDisplace(a.s, a.locks, a.m, from.bucket, from.slot, to.bucket, to.slot);
    SharedWith(a, b);
  }

  lemma MovedQuiet(a: Shared, b: Shared, t: nat, f: nat, fs: nat, g: nat, gs: nat)
    requires SharedOk(a) && LiveAt(a.s.cur, f, fs) && g < |a.s.cur| && gs < |a.s.cur[g]|
    requires b == a.(s := a.s.(cur := Displaced(a.s.cur, f, fs, g, gs)))
    requires LockInd(f) < |a.owners[a.Last()]| && a.owners[a.Last()][LockInd(f)] == Some(t)
    requires LockInd(g) < |a.owners[a.Last()]| && a.owners[a.Last()][LockInd(g)] == Some(t)
    ensures Quiet(a, b, t) && f < |b.s.cur| && fs < |b.s.cur[f]| && b.s.cur[f][fs].Empty?
  {
    hide Good, Replay, RightAnswers, LockInd;
  }

  lemma LinkedAt(task: Task)
    requires task.Linked() && task.goal.Move?
    ensures var path, d := task.goal.path, task.goal.d;
            && 1 <= d < |path| && path[d - 1].hv.partial == PartialKey(path[d - 1].hv.hash)
            && path[d].bucket == AltIndex(task.hp, path[d - 1].hv.partial, path[d - 1].bucket)
            && (d == 1 ==> path[0].bucket == task.First() || path[0].bucket == task.Second())
            && (d > 1 ==> task.(goal := Move(path, task.goal.depth, d - 1)).Linked())
  {
    hide AltIndex, PartialKey, Home, Other;
    var path, d := task.goal.path, task.goal.d;
    assert path[(d - 1) + 1] == path[d];
  }

  lemma MoveInsideKeeps(v: System, t: nat, b: Shared, q: Pc)
    requires Inv(v) && t < |v.pcs| && MoveInside(v.sh, v.pcs[t], b, q)
    ensures Inv(System(b, v.pcs[t := q]))
  {
    hide Inv, SharedOk, OwnersMatch, Task.Wanted, Task.Linked, LockInd, Home, Other, AltIndex, PartialKey, PcOk, Quiet;
    hide SameLocks, KeyReady, Displaced;
    var p := v.pcs[t];
    var path, d := p.task.goal.path, p.task.goal.d;
    var from, to := path[d - 1], path[d];
    InvFacts(v);
    InsideFacts(v, t);
    WantedHas(p.task);
    LinkedAt(p.task);
    if MayMove(v.sh.s.cur, from, to) {
      InsideLock(v, t, LockInd(from.bucket));
      InsideLock(v, t, LockInd(to.bucket));
      MovedOk(v.sh, b, from, to);
      MovedQuiet(v.sh, b, t, from.bucket, from.slot, to.bucket, to.slot);
      if d == 1 {
        FreedIs(v, t, b, from.bucket, from.slot);
      } else {
        assert LooseOk(b, q.next);
        LeaveOk(v, t, b, q.next);
      }
      KeepInside(v, t, b, q);
    } else {
      LooseIs(v.sh, b, p, q.next);
      LeaveOk(v, t, b, q.next);
      KeepLocal(v, t, q);
    }
  }

  /** From the critical section of the last displacement to the one in which its slot is filled. */
  lemma FreedIs(v: System, t: nat, b: Shared, bucket: nat, slot: nat)
    requires Inv(v) && t < |v.pcs| && v.pcs[t].Inside? && v.pcs[t].task.op.Uprase?
    requires v.pcs[t].task.goal.Settle? || (v.pcs[t].task.goal.Move? && v.pcs[t].task.goal.d == 1)
    requires b.owners == v.sh.owners && b.s.hp == v.sh.s.hp && b.s.migrated == v.sh.s.migrated
    requires bucket == v.pcs[t].task.First() || bucket == v.pcs[t].task.Second()
    requires bucket < |b.s.cur| && slot < |b.s.cur[bucket]| && b.s.cur[bucket][slot].Empty?
    ensures var p := v.pcs[t];
            var q := Freed(p.task, p.gen, p.taken, bucket, slot);
            PcOk(b, q) && SameLocks(v.sh, p, q)
  {
    hide Inv, SharedOk, OwnersMatch, Task.Wanted, Task.Linked, LockInd, Home, Other, MigratedUpTo, Distinct;
    var p := v.pcs[t];
    InvFacts(v);
    InsideFacts(v, t);
    WantedHas(p.task);
    MigratedSame(v.sh, b, p.taken, |p.taken|);
  }

  lemma SettleInsideKeeps(v: System, t: nat, b: Shared, q: Pc)
    requires Inv(v) && t < |v.pcs| && SettleInside(v.sh, v.pcs[t], b, q)
    ensures Inv(System(b, v.pcs[t := q]))
  {
    hide Inv, SharedOk, OwnersMatch, Task.Wanted, LockInd, Home, Other, AltIndex, PartialKey, PcOk, SameLocks;
    var p := v.pcs[t];
    InsideFacts(v, t);
    var r := p.task.goal.path[0];
    if v.sh.s.cur[r.bucket][r.slot].Empty? {
      FreedIs(v, t, b, r.bucket, r.slot);
    } else {
      LooseIs(v.sh, b, p, q.next);
      LeaveOk(v, t, b, q.next);
    }
    KeepLocal(v, t, q);
  }

  lemma DistinctWithout(taken: seq<nat>, x: nat)
    requires Distinct(taken) && x < |taken|
    ensures var rest := taken[..x] + taken[x + 1..];
            Distinct(rest) && forall j :: j in rest <==> j in taken && j != taken[x]
  {
    var rest := taken[..x] + taken[x + 1..];
    assert forall y | 0 <= y < |rest| :: rest[y] == if y < x then taken[y] else taken[y + 1];
    forall j | j in taken && j != taken[x]
      ensures j in rest
    {
      var y :| 0 <= y < |taken| && taken[y] == j;
      assert j == rest[if y < x then y else y - 1];
    }
  }

  lemma DropExtraKeeps(v: System, t: nat, b: Shared, q: Pc, x: nat)
    requires Inv(v) && t < |v.pcs| && DropExtra(v.sh, v.pcs[t], b, q, x)
    ensures Inv(System(b, v.pcs[t := q]))
  {
    hide Inv, SharedOk, OwnersMatch, Task.Linked, LockInd, Home, Other, Distinct, HasLock, FreedOk, PcOk;
    var p := v.pcs[t];
    InvFacts(v);
    DroppedOk(v.sh, p, b, q, x);
    MatchOf(v, t, p.gen, p.taken[x]);
    OwnerSizes(v.sh, b, p.gen, p.taken[x], None);
    forall i, j | 0 <= i < |v.sh.owners| && 0 <= j < |v.sh.owners[i]|
      ensures HasLock(q, i, j) <==> !(i == p.gen && j == p.taken[x]) && HasLock(p, i, j)
    {
      DroppedHas(p, q, x, i, j);
    }
    DroppedHas(p, q, x, p.gen, p.taken[x]);
    KeepOwner(v, t, b, q, p.gen, p.taken[x], None);
  }

  lemma DroppedHas(p: Pc, q: Pc, x: nat, i: int, j: int)
    requires p.Freed? && x < |p.taken| && Distinct(p.taken)
    requires q == Freed(p.task, p.gen, p.taken[..x] + p.taken[x + 1..], p.bucket, p.slot)
    ensures HasLock(q, i, j) <==> !(i == p.gen && j == p.taken[x]) && HasLock(p, i, j)
    ensures HasLock(p, p.gen, p.taken[x])
  {
    hide Distinct;
    DistinctWithout(p.taken, x);
  }

  lemma DroppedOk(a: Shared, p: Pc, b: Shared, q: Pc, x: nat)
    requires DropExtra(a, p, b, q, x) && PcOk(a, p) && SharedOk(a)
    ensures PcOk(b, q) && Distinct(p.taken) && !q.Decrement?
  {
    hide Task.Linked, LockInd, Home, Other, Distinct, SharedOk, MigratedUpTo, TaskOk;
    DistinctWithout(p.taken, x);
    OwnerSizes(a, b, p.gen, p.taken[x], None);
    FewerLocks(a, p.gen, p.taken, q.taken);
    MigratedSame(a, b, q.taken, |q.taken|);
    TaskSame(a, b, p.task);
  }

  lemma TaskSame(a: Shared, b: Shared, task: Task)
    requires TaskOk(a, task) && b.s.hp == a.s.hp
    ensures TaskOk(b, task)
  {
    hide Task.Linked;
  }

  /** Some of the locks of an array, all of them migrated. */
  lemma FewerLocks(a: Shared, gen: nat, taken: seq<nat>, rest: seq<nat>)
    requires gen < |a.owners| && MigratedUpTo(a, taken, |taken|) && forall y | 0 <= y < |taken| :: taken[y] < |a.owners[gen]|
    requires forall j :: j in rest ==> j in taken
    ensures MigratedUpTo(a, rest, |rest|) && forall y | 0 <= y < |rest| :: rest[y] < |a.owners[gen]|
  {
    forall y | 0 <= y < |rest|
      ensures rest[y] < |a.owners[gen]| && rest[y] < |a.s.migrated| && a.s.migrated[rest[y]]
    {
      assert rest[y] in rest;
      var z :| 0 <= z < |taken| && taken[z] == rest[y];
    }
  }

  lemma FreedReady(v: System, t: nat)
    requires Inv(v) && t < |v.pcs| && v.pcs[t].Freed?
    ensures var p := v.pcs[t];
            && KeyReady(v.sh, t, p.task.op.key) && p.task.hp == v.sh.s.hp && p.task.op.Uprase?
            && (p.bucket == p.task.First() || p.bucket == p.task.Second())
            && p.bucket < |v.sh.s.cur| && p.slot < |v.sh.s.cur[p.bucket]| && v.sh.s.cur[p.bucket][p.slot].Empty?
  {
    hide Inv, SharedOk, OwnersMatch, Task.Linked, LockInd, Home, Other, Distinct;
    var p := v.pcs[t];
    InvFacts(v);
    ThreadHas(v, t);
    var l1, l2 := LockInd(p.task.First()), LockInd(p.task.Second());
    var x :| 0 <= x < |p.taken| && p.taken[x] == l1;
    var y :| 0 <= y < |p.taken| && p.taken[y] == l2;
    assert HasLock(p, p.gen, l1) && HasLock(p, p.gen, l2);
  }

  lemma FreedLeaves(v: System, t: nat, b: Shared, next: Pc)
    requires Inv(v) && t < |v.pcs| && v.pcs[t].Freed? && b.owners == v.sh.owners && next.Done?
    ensures PcOk(b, Release(v.pcs[t].gen, v.pcs[t].taken, next))
    ensures SameLocks(v.sh, v.pcs[t], Release(v.pcs[t].gen, v.pcs[t].taken, next))
  {
    hide Inv, SharedOk, OwnersMatch, TaskOk, LockInd, Home, Other, Distinct, MigratedUpTo;
    InvFacts(v);
  }

  lemma InsertFreedKeeps(v: System, t: nat, b: Shared, q: Pc, pos: Option<(nat, nat)>)
    requires Inv(v) && t < |v.pcs| && InsertFreed(v.sh, v.pcs[t], b, q, pos)
    ensures Inv(System(b, v.pcs[t := q]))
  {
    hide Inv, SharedOk, OwnersMatch, FoundAt, Task.Wanted, Task.Linked, LockInd, Home, Other;
    hide PcOk, Quiet, SameLocks, KeyReady, Logged;
    var p := v.pcs[t];
    FreedReady(v, t);
    FreedOwners(v.sh, p, b, q, pos);
    FreedLeaves(v, t, b, q.next);
    if pos.Some? {
      OperateFound(v, t, b, q, pos.value.0, pos.value.1);
    } else {
      OperateAdds(v, t, b, q, p.bucket, p.slot);
    }
  }

  lemma FreedOwners(a: Shared, p: Pc, b: Shared, q: Pc, pos: Option<(nat, nat)>)
    requires InsertFreed(a, p, b, q, pos)
    ensures b.owners == a.owners && q == Release(p.gen, p.taken, q.next) && q.next.Done?
  {
    hide FoundAt, Logged, LockInd, Home, Other;
  }

  // Doubling.

  lemma LockNextKeeps(v: System, t: nat, b: Shared, q: Pc)
    requires Inv(v) && t < |v.pcs| && LockNext(v.sh, v.pcs[t], b, q, t)
    ensures Inv(System(b, v.pcs[t := q]))
  {
    hide Inv, SharedOk, OwnersMatch;
    InvFacts(v);
    OwnerSizes(v.sh, b, v.pcs[t].gen, v.pcs[t].l, Some(t));
    KeepOwner(v, t, b, q, v.pcs[t].gen, v.pcs[t].l, Some(t));
  }

  lemma Sizes(a: Shared)
    requires SharedOk(a)
    ensures |a.owners| == |a.born| >= 1 && forall x | 0 <= x < |a.owners| :: |a.owners[x]| >= 1
    ensures |a.owners[a.Last()]| == |a.locks| == |a.s.migrated| && a.s.Wf()
  {
    hide Represents, LockInd, Replay, RightAnswers;
  }

  lemma LastIs(a: Shared)
    ensures a.Last() == |a.owners| - 1
  {
  }

  lemma LockNextArrayKeeps(v: System, t: nat, b: Shared, q: Pc)
    requires Inv(v) && t < |v.pcs| && LockNextArray(v.sh, v.pcs[t], b, q)
    ensures Inv(System(b, v.pcs[t := q]))
  {
    hide Inv, SharedOk, OwnersMatch;
    InvFacts(v);
    KeepLocal(v, t, q);
  }

  lemma CheckResizeKeeps(v: System, t: nat, b: Shared, q: Pc, throws: bool)
    requires Inv(v) && t < |v.pcs| && CheckResize(v.sh, v.pcs[t], b, q, throws)
    ensures Inv(System(b, v.pcs[t := q]))
  {
    hide Inv, SharedOk, OwnersMatch, Split.Wf, PcOk, SameLocks;
    InvFacts(v);
    Sizes(v.sh);
    ResizeChecked(v.sh, v.pcs[t], q, throws);
    KeepLocal(v, t, q);
  }

  lemma ResizeChecked(a: Shared, p: Pc, q: Pc, throws: bool)
    requires CheckResize(a, p, a, q, throws) && PcOk(a, p) && forall x | 0 <= x < |a.owners| :: |a.owners[x]| >= 1
    ensures PcOk(a, q) && SameLocks(a, p, q)
  {
    hide Split.AllMigrated;
  }

  /** A thread that has locked everything owns the current array. */
  lemma ResizerOwns(v: System, t: nat)
    requires Inv(v) && t < |v.pcs| && HasAll(v.pcs[t])
    ensures OwnsCurrent(v.sh, t) && |v.sh.owners[v.sh.Last()]| > 0 && v.pcs[t].first <= v.sh.Last()
    ensures forall u | 0 <= u < |v.pcs| && u != t :: !IsInside(v.pcs[u]) && !HasAll(v.pcs[u])
  {
    hide Inv, SharedOk, OwnersMatch, Split.AllMigrated;
    InvFacts(v);
    ThreadHas(v, t);
    HasAllOwns(v.sh, v.pcs[t], t);
    forall u | 0 <= u < |v.pcs| && u != t
      ensures !IsInside(v.pcs[u]) && !HasAll(v.pcs[u])
    {
      NobodyInside(v, t, u);
      if HasAll(v.pcs[u]) {
        ThreadHas(v, u);
        HasAllOwns(v.sh, v.pcs[u], u);
      }
    }
  }

  lemma QuietSame(a: Shared, t: nat)
    requires SharedOk(a)
    ensures Quiet(a, a, t)
  {
    hide Good, Replay, RightAnswers, LockInd;
  }

  lemma CountMoot(v: System, t: nat, b: Shared, q: Pc)
    requires t < |v.pcs| && q.Finish?
    ensures CountOk(System(b, v.pcs[t := q]))
  {
    assert v.pcs[t := q][t].Finish?;
  }

  lemma FinishOneKeeps(v: System, t: nat, b: Shared, q: Pc)
    requires Inv(v) && t < |v.pcs| && FinishOne(v.sh, v.pcs[t], b, q)
    ensures Inv(System(b, v.pcs[t := q]))
  {
    hide Inv, SharedOk, OwnersMatch, StripeMoved, Quiet, CountOk, Split.Wf;
    InvFacts(v);
    ResizerOwns(v, t);
    Sizes(v.sh);
    CountMoot(v, t, b, q);
    var l := v.pcs[t].l;
    if v.sh.locks[l].isMigrated {
      QuietSame(v.sh, t);
      FlagOf(v.sh, l);
    } else {
      StripeOk(v.sh, b, l);
      StripeQuiet(v.sh, b, l, t);
    }
    KeepData(v, t, b, q);
  }

  /** With one thread owning everything there is nobody who has migrated but not counted. */
  lemma NobodyCounts(v: System, t: nat, q: Pc)
    requires Inv(v) && t < |v.pcs| && HasAll(v.pcs[t]) && !q.Decrement?
    ensures Uncounted(v.pcs[t := q]) == 0
  {
    ResizerOwns(v, t);
    hide Inv;
    NoneUncounted(v.pcs[t := q]);
  }

  lemma DrainHeld(a: Shared, p: Pc, q: Pc)
    requires p.Finish? && q.Drained? && q.first == p.first
    ensures SameLocks(a, p, q)
  {
  }

  lemma DrainKeeps(v: System, t: nat, b: Shared, q: Pc)
    requires Inv(v) && t < |v.pcs| && Drain(v.sh, v.pcs[t], b, q)
    ensures Inv(System(b, v.pcs[t := q]))
  {
    hide Inv, SharedOk, OwnersMatch, Split.Wf, HasLock, PcOk, OwnsCurrent, Quiet, Drain, Split.AllMigrated;
    InvFacts(v);
    DrainedOk(v.sh, v.pcs[t], b, q);
    ResizerOwns(v, t);
    NobodyCounts(v, t, q);
    UnmigratedZero(b.s.migrated);
    DrainHeld(v.sh, v.pcs[t], q);
    DrainQuiet(v.sh, b, t);
    AllFlags(b.s);
    KeepData(v, t, b, q);
  }

  lemma AllFlags(s: Split)
    requires s.AllMigrated()
    ensures forall l | 0 <= l < |s.migrated| :: s.migrated[l]
  {
  }

  lemma DrainedOk(a: Shared, p: Pc, b: Shared, q: Pc)
    requires Drain(a, p, b, q) && PcOk(a, p) && SharedOk(a)
    ensures SharedOk(b) && PcOk(b, q) && p.Finish? && HasAll(p) && q.Drained? && q.first == p.first && SameLocking(a, b)
    ensures b.s.AllMigrated() && b.remaining == 0 && b == a.(remaining := 0, s := a.s.(past := []))
  {
    hide SharedOk, Split.Wf;
    Sizes(a);
    assert a.s.AllMigrated();
    var c := a.(s := a.s.(past := []));
    FreedShared(a, c);
    SharedStays(c, b);
  }

  lemma DrainQuiet(a: Shared, b: Shared, t: nat)
    requires SharedOk(a) && OwnsCurrent(a, t) && |a.owners[a.Last()]| > 0 && b == a.(remaining := 0, s := a.s.(past := []))
    ensures Quiet(a, b, t)
  {
    hide SharedOk, LockInd;
    assert a.owners[a.Last()][0] == Some(t);
  }

  lemma DrainedHp(v: System, t: nat)
    requires Inv(v) && t < |v.pcs| && v.pcs[t].Drained?
    ensures v.pcs[t].hp == v.sh.s.hp
  {
    hide Inv, SharedOk, OwnersMatch, BornOk, CountOk, Split.AllMigrated;
    InvFacts(v);
  }

  lemma AppendLocksKeeps(v: System, t: nat, b: Shared, q: Pc)
    requires Inv(v) && t < |v.pcs| && AppendLocks(v.sh, v.pcs[t], b, q, t)
    ensures Inv(System(b, v.pcs[t := q]))
  {
    hide Inv, SharedOk, OwnersMatch, Split.Wf, GrownLocks, Flags, BornOk, CountOk, Allowed, OwnersStep, OneArrayMore;
    InvFacts(v);
    Sizes(v.sh);
    if |v.sh.locks| < MaxLocks() && |v.sh.locks| < HashSize(v.pcs[t].hp + 1) {
      AppendShared(v.sh, b, Min(MaxLocks(), HashSize(v.pcs[t].hp + 1)), t, v.pcs[t].hp + 1);
      ResizerOwns(v, t);
      DrainedHp(v, t);
      AppendedOne(v.sh, v.pcs[t], b, q, t);
      AppendAllowed(v.sh, b, t);
      AppendOwners(v, t, b, q);
      AppendBorn(v, t, b, q);
      AppendCount(v, t, b, q);
      StepInv(v, t, b, q);
    } else {
      KeepLocal(v, t, q);
    }
  }

  lemma AppendShared(a: Shared, b: Shared, n: nat, t: nat, hp: nat)
    requires SharedOk(a) && a.s.AllMigrated() && |a.locks| < n <= MaxLocks()
    requires b == a.(owners := a.owners + [seq(n, _ => Some(t))], born := a.born + [hp],
                     s := a.s.(migrated := Flags(GrownLocks(a.locks, n))), locks := GrownLocks(a.locks, n))
    ensures SharedOk(b) && |b.locks| == n && b.s.AllMigrated() && |b.s.migrated| == n
  {
    hide Good, Replay, RightAnswers, Split.Wf;
    GoodGrow(a.s, a.locks, a.m, n);
    GrownFlags(a.locks, n);
    CurrentShape(a);
  }

  /** b has one lock array more than a, all of it owned by t. */
  ghost predicate OneArrayMore(a: Shared, b: Shared, t: nat) {
    && |a.owners| == |a.born| > 0 && |b.owners| == |b.born| == |a.owners| + 1 && b.s.hp == a.s.hp
    && (forall x | 0 <= x < |a.owners| :: b.owners[x] == a.owners[x] && b.born[x] == a.born[x])
    && b.born[|a.owners|] == a.s.hp + 1
    && forall y | 0 <= y < |b.owners[|a.owners|]| :: b.owners[|a.owners|][y] == Some(t)
  }

  lemma AppendedOne(a: Shared, p: Pc, b: Shared, q: Pc, t: nat)
    requires AppendLocks(a, p, b, q, t) && |b.owners| > |a.owners| == |a.born| > 0 && p.hp == a.s.hp
    ensures OneArrayMore(a, b, t)
  {
    hide GrownLocks, Flags, Split.Wf, HashSize, MaxLocks;
  }

  lemma AppendAllowed(a: Shared, b: Shared, t: nat)
    requires OneArrayMore(a, b, t) && OwnsCurrent(a, t)
    ensures Allowed(a, b, t)
  {
    hide OwnsCurrent, Quiet;
  }

  lemma AppendHas(p: Pc, q: Pc, x: int, y: int)
    requires p.Drained? && q.Appended? && q.first == p.first
    ensures HasLock(q, x, y) <==> q.first <= x
    ensures HasLock(p, x, y) <==> p.first <= x
  {
  }

  lemma AppendOwners(v: System, t: nat, b: Shared, q: Pc)
    requires OwnersMatch(v) && t < |v.pcs| && OneArrayMore(v.sh, b, t)
    requires v.pcs[t].Drained? && q.Appended? && v.pcs[t].first == q.first <= v.sh.Last()
    ensures OwnersStep(v.sh, b, t, q)
  {
    hide OwnersMatch, HasLock;
    forall x, y | 0 <= x < |b.owners| && 0 <= y < |b.owners[x]|
      ensures b.owners[x][y] == Some(t) <==> HasLock(q, x, y)
    {
      AppendHas(v.pcs[t], q, x, y);
      if x < |v.sh.owners| {
        MatchOf(v, t, x, y);
      }
    }
  }

  lemma AppendBorn(v: System, t: nat, b: Shared, q: Pc)
    requires Inv(v) && t < |v.pcs| && v.pcs[t].Drained? && q.Appended? && q.first == v.pcs[t].first && b.s.hp == v.sh.s.hp
    requires |b.owners| == |v.sh.owners| + 1 && b.born == v.sh.born + [v.sh.s.hp + 1]
    ensures BornOk(System(b, v.pcs[t := q]))
  {
    InvFacts(v);
    Sizes(v.sh);
    ResizerOwns(v, t);
    hide Inv, SharedOk, OwnersMatch, PcOk, Split.Wf;
    var w := System(b, v.pcs[t := q]);
    assert Appender(w, t);
    forall x | 1 <= x < |v.sh.born|
      ensures b.born[x] <= b.s.hp
    {
    }
  }

  lemma AppendCount(v: System, t: nat, b: Shared, q: Pc)
    requires Inv(v) && t < |v.pcs| && v.pcs[t].Drained? && q.Appended? && b.remaining == v.sh.remaining && b.s.AllMigrated()
    ensures CountOk(System(b, v.pcs[t := q]))
  {
    hide Inv;
    NobodyCounts(v, t, q);
    UnmigratedZero(b.s.migrated);
    DrainedCount(v, t);
  }

  lemma DrainedCount(v: System, t: nat)
    requires Inv(v) && t < |v.pcs| && v.pcs[t].Drained?
    ensures v.sh.remaining == 0
  {
    hide Inv, SharedOk, OwnersMatch, BornOk, CountOk, Split.AllMigrated;
    InvFacts(v);
  }

  lemma PublishShared(a: Shared, p: Pc, b: Shared, q: Pc)
    requires SharedOk(a) && PcOk(a, p) && PublishDoubled(a, p, b, q)
    ensures SharedOk(b) && b.s.hp == a.s.hp + 1 && |b.locks| == |a.locks|
    ensures b.owners == a.owners && b.born == a.born
    ensures b.remaining == Unmigrated(b.s.migrated)
  {
    hide Good, Replay, RightAnswers;
    GoodPublish(a.s, a.locks, a.m);
    if HashSize(a.s.hp) < MaxLocks() {
      UnmigratedZero(b.s.migrated);
    } else {
      CurrentShape(a);
      UnmigratedAll(b.s.migrated);
    }
    hide Split.Wf, Doubled, EmptyTable;
  }

  lemma PublishDoubledKeeps(v: System, t: nat, b: Shared, q: Pc)
    requires Inv(v) && t < |v.pcs| && PublishDoubled(v.sh, v.pcs[t], b, q)
    ensures Inv(System(b, v.pcs[t := q]))
  {
    hide *;
    InvFacts(v);
    PublishShared(v.sh, v.pcs[t], b, q);
    PublishIs(v.sh, v.pcs[t], b, q);
    Sizes(v.sh);
    ResizerOwns(v, t);
    NobodyCounts(v, t, q);
    PublishCount(v, t, b, q);
    PublishBorn(v, t, b, q);
    PublishAllowed(v.sh, b, t);
    PublishPc(v.sh, v.pcs[t], b, q);
    UnlockStarts(v.sh, v.pcs[t], q);
    OwnersStepSame(v, t, b, q);
    StepInv(v, t, b, q);
  }

  lemma PublishIs(a: Shared, p: Pc, b: Shared, q: Pc)
    requires PublishDoubled(a, p, b, q)
    ensures p.Appended? && |a.owners| > 0 && q == UnlockAll(p.first, 0, |a.owners| - 1, Begin(p.op)) && HasAll(p)
  {
    hide Split.Wf, Split.Published, PublishedLocks;
  }

  lemma PublishCount(v: System, t: nat, b: Shared, q: Pc)
    requires t < |v.pcs| && Uncounted(v.pcs[t := q]) == 0 && b.remaining == Unmigrated(b.s.migrated)
    ensures CountOk(System(b, v.pcs[t := q]))
  {
  }

  lemma PublishAllowed(a: Shared, b: Shared, t: nat)
    requires OwnsCurrent(a, t) && b.owners == a.owners && b.born == a.born && |a.owners| == |a.born| > 0 && b.s.hp == a.s.hp + 1
    ensures Allowed(a, b, t)
  {
    hide OwnsCurrent, Quiet;
  }

  lemma PublishPc(a: Shared, p: Pc, b: Shared, q: Pc)
    requires PcOk(a, p) && p.Appended? && q == UnlockAll(p.first, 0, |a.owners| - 1, Begin(p.op)) && b.owners == a.owners
    requires forall x | 0 <= x < |a.owners| :: |a.owners[x]| >= 1
    ensures PcOk(b, q)
  {
    hide Split.AllMigrated;
  }

  lemma UnlockStarts(a: Shared, p: Pc, q: Pc)
    requires |a.owners| > 0 && p.Appended? && q == UnlockAll(p.first, 0, |a.owners| - 1, Begin(p.op))
    ensures SameLocks(a, p, q)
  {
  }

  lemma PublishBorn(v: System, t: nat, b: Shared, q: Pc)
    requires BornOk(v) && t < |v.pcs| && b.born == v.sh.born && b.s.hp == v.sh.s.hp + 1
    ensures BornOk(System(b, v.pcs[t := q]))
  {
  }

  lemma UnlockNextKeeps(v: System, t: nat, b: Shared, q: Pc)
    requires Inv(v) && t < |v.pcs| && UnlockNext(v.sh, v.pcs[t], b, q)
    ensures Inv(System(b, v.pcs[t := q]))
  {
    hide Inv, SharedOk, OwnersMatch;
    InvFacts(v);
    var p := v.pcs[t];
    OwnerSizes(v.sh, b, p.gen, p.l, None);
    LooseStable(v.sh, b, p.next);
    MatchOf(v, t, p.gen, p.l);
    hide LooseOk;
    KeepOwner(v, t, b, q, p.gen, p.l, None);
  }

  /** The list of lock arrays has grown since the thread released the last array that it had locked. */
  ghost predicate Overtaken(v: System, t: nat) {
    t < |v.pcs| && v.pcs[t].AtEnd? && v.pcs[t].gen == v.pcs[t].last && v.pcs[t].gen + 1 < |v.sh.owners|
  }

  lemma CompareWithEndKeeps(v: System, t: nat, b: Shared, q: Pc)
    requires Inv(v) && t < |v.pcs| && CompareWithEnd(v.sh, v.pcs[t], b, q) && !Overtaken(v, t)
    ensures Inv(System(b, v.pcs[t := q]))
  {
    hide Inv, SharedOk, OwnersMatch, Split.Wf, PcOk, SameLocks;
    InvFacts(v);
    Sizes(v.sh);
    ComparedInTime(v, t, q);
    KeepLocal(v, t, q);
  }

  lemma ComparedInTime(v: System, t: nat, q: Pc)
    requires t < |v.pcs| && CompareWithEnd(v.sh, v.pcs[t], v.sh, q) && !Overtaken(v, t) && PcOk(v.sh, v.pcs[t])
    requires forall x | 0 <= x < |v.sh.owners| :: |v.sh.owners[x]| >= 1
    ensures PcOk(v.sh, q) && SameLocks(v.sh, v.pcs[t], q) && !q.Decrement?
  {
    hide TaskOk, SearchOk, Home, Other;
  }

  // All steps.

  lemma TaskStepKeeps(v: System, t: nat, b: Shared, q: Pc, c: Choice)
    requires Inv(v) && t < |v.pcs| && TaskStep(v.sh, v.pcs[t], b, q, t, c)
    ensures Inv(System(b, v.pcs[t := q]))
  {
    hide *;
    var a, p := v.sh, v.pcs[t];
    TaskStepCases(a, p, b, q, t, c);
    if ReadHashpower(a, p, b, q) {
      ReadHashpowerKeeps(v, t, b, q);
    } else if FetchLocks(a, p, b, q) {
      FetchLocksKeeps(v, t, b, q);
    } else if TakeLock(a, p, b, q, t) {
      TakeLockKeeps(v, t, b, q);
    } else if CheckHashpower(a, p, b, q) {
      CheckHashpowerKeeps(v, t, b, q);
    } else if SkipMigrated(a, p, b, q) {
      SkipMigratedKeeps(v, t, b, q);
    } else if MigrateOne(a, p, b, q) {
      MigrateOneKeeps(v, t, b, q);
    } else if DecrementRemaining(a, p, b, q) {
      DecrementRemainingKeeps(v, t, b, q);
    } else if FreeOld(a, p, b, q) {
      FreeOldKeeps(v, t, b, q);
    } else if ReleaseOne(a, p, b, q) {
      ReleaseOneKeeps(v, t, b, q);
    } else if Invoke(a, p, b, q, c.op) {
      InvokeKeeps(v, t, b, q, c.op);
    } else {
      ReturnKeeps(v, t, b, q);
    }
  }

  lemma TaskStepCases(a: Shared, p: Pc, b: Shared, q: Pc, t: nat, c: Choice)
    requires TaskStep(a, p, b, q, t, c)
    ensures || ReadHashpower(a, p, b, q) || FetchLocks(a, p, b, q) || TakeLock(a, p, b, q, t) || CheckHashpower(a, p, b, q)
            || SkipMigrated(a, p, b, q) || MigrateOne(a, p, b, q) || DecrementRemaining(a, p, b, q) || FreeOld(a, p, b, q)
            || ReleaseOne(a, p, b, q) || Invoke(a, p, b, q, c.op) || Return(a, p, b, q)
  {
  }

  lemma InsideStepKeeps(v: System, t: nat, b: Shared, q: Pc, c: Choice)
    requires Inv(v) && t < |v.pcs| && InsideStep(v.sh, v.pcs[t], b, q, t, c)
    ensures Inv(System(b, v.pcs[t := q]))
  {
    hide *;
    var a, p := v.sh, v.pcs[t];
    InsideStepCases(a, p, b, q, t, c);
    if OperateInside(a, p, b, q, c.pos, c.free) {
      OperateInsideKeeps(v, t, b, q, c.pos, c.free);
    } else if LookInside(a, p, b, q) {
      LookInsideKeeps(v, t, b, q);
    } else if MoveInside(a, p, b, q) {
      MoveInsideKeeps(v, t, b, q);
    } else if SettleInside(a, p, b, q) {
      SettleInsideKeeps(v, t, b, q);
    } else if DropExtra(a, p, b, q, c.n) {
      DropExtraKeeps(v, t, b, q, c.n);
    } else if InsertFreed(a, p, b, q, c.pos) {
      InsertFreedKeeps(v, t, b, q, c.pos);
    } else if SearchOn(a, p, b, q) {
      SearchOnKeeps(v, t, b, q);
    } else if SearchEnds(a, p, b, q) {
      SearchEndsKeeps(v, t, b, q);
    } else {
      SearchFailsKeeps(v, t, b, q);
    }
  }

  lemma InsideStepCases(a: Shared, p: Pc, b: Shared, q: Pc, t: nat, c: Choice)
    requires InsideStep(a, p, b, q, t, c)
    ensures || OperateInside(a, p, b, q, c.pos, c.free) || LookInside(a, p, b, q) || MoveInside(a, p, b, q)
            || SettleInside(a, p, b, q) || DropExtra(a, p, b, q, c.n) || InsertFreed(a, p, b, q, c.pos)
            || SearchOn(a, p, b, q) || SearchEnds(a, p, b, q) || SearchFails(a, p, b, q)
  {
    hide OperateInside, MoveInside, InsertFreed, DropExtra, SettleInside;
  }

  lemma ResizeStepKeeps(v: System, t: nat, b: Shared, q: Pc, c: Choice)
    requires Inv(v) && t < |v.pcs| && ResizeStep(v.sh, v.pcs[t], b, q, t, c) && !Overtaken(v, t)
    ensures Inv(System(b, v.pcs[t := q]))
  {
    hide *;
    var a, p := v.sh, v.pcs[t];
    ResizeStepCases(a, p, b, q, t, c);
    if LockNext(a, p, b, q, t) {
      LockNextKeeps(v, t, b, q);
    } else if LockNextArray(a, p, b, q) {
      LockNextArrayKeeps(v, t, b, q);
    } else if CheckResize(a, p, b, q, c.throws) {
      CheckResizeKeeps(v, t, b, q, c.throws);
    } else if FinishOne(a, p, b, q) {
      FinishOneKeeps(v, t, b, q);
    } else if Drain(a, p, b, q) {
      DrainKeeps(v, t, b, q);
    } else if AppendLocks(a, p, b, q, t) {
      AppendLocksKeeps(v, t, b, q);
    } else if PublishDoubled(a, p, b, q) {
      PublishDoubledKeeps(v, t, b, q);
    } else if UnlockNext(a, p, b, q) {
      UnlockNextKeeps(v, t, b, q);
    } else {
      CompareWithEndKeeps(v, t, b, q);
    }
  }

  lemma ResizeStepCases(a: Shared, p: Pc, b: Shared, q: Pc, t: nat, c: Choice)
    requires ResizeStep(a, p, b, q, t, c)
    ensures || LockNext(a, p, b, q, t) || LockNextArray(a, p, b, q) || CheckResize(a, p, b, q, c.throws)
            || FinishOne(a, p, b, q) || Drain(a, p, b, q) || AppendLocks(a, p, b, q, t) || PublishDoubled(a, p, b, q)
            || UnlockNext(a, p, b, q) || CompareWithEnd(a, p, b, q)
  {
    hide AppendLocks, PublishDoubled, FinishOne, Drain;
  }

  lemma StepIs(v: System, t: nat, w: System, c: Choice)
    requires Step(v, t, w, c)
    ensures t < |v.pcs| == |w.pcs| && w == System(w.sh, v.pcs[t := w.pcs[t]])
    ensures ThreadStep(v.sh, v.pcs[t], w.sh, w.pcs[t], t, c)
    ensures var a, p, b, q := v.sh, v.pcs[t], w.sh, w.pcs[t];
            TaskStep(a, p, b, q, t, c) || InsideStep(a, p, b, q, t, c) || ResizeStep(a, p, b, q, t, c)
  {
    hide TaskStep, InsideStep, ResizeStep;
  }

  /** Every step keeps the invariant, unless the comparison with the end of the list comes too late. */
  lemma StepKeeps(v: System, t: nat, w: System, c: Choice)
    requires Inv(v) && Step(v, t, w, c) && !Overtaken(v, t)
    ensures Inv(w)
  {
    hide *;
    StepIs(v, t, w, c);
    var a, p, b, q := v.sh, v.pcs[t], w.sh, w.pcs[t];
    if TaskStep(a, p, b, q, t, c) {
      TaskStepKeeps(v, t, b, q, c);
    } else if InsideStep(a, p, b, q, t, c) {
      InsideStepKeeps(v, t, b, q, c);
    } else {
      ResizeStepKeeps(v, t, b, q, c);
    }
  }

  /** At a comparison that comes too late, the thread goes on to locks that are not its own. */
  lemma TooLate(v: System, t: nat, w: System, c: Choice)
    requires Inv(v) && Step(v, t, w, c) && Overtaken(v, t)
    ensures w.sh == v.sh && w.pcs[t] == UnlockAll(v.pcs[t].gen + 1, 0, v.pcs[t].last, v.pcs[t].next)
    ensures HasLock(w.pcs[t], v.pcs[t].gen + 1, 0) && w.sh.owners[v.pcs[t].gen + 1][0] != Some(t)
    ensures !Inv(w)
  {
    hide *;
    StepIs(v, t, w, c);
    InvFacts(v);
    Sizes(v.sh);
    LateComparison(v, t, w.sh, w.pcs[t], c);
    MatchOf(v, t, v.pcs[t].gen + 1, 0);
    if Inv(w) {
      InvFacts(w);
      MatchOf(w, t, v.pcs[t].gen + 1, 0);
    }
  }

  lemma LateComparison(v: System, t: nat, b: Shared, q: Pc, c: Choice)
    requires Overtaken(v, t) && t < |v.pcs| && ThreadStep(v.sh, v.pcs[t], b, q, t, c)
    ensures v.pcs[t].AtEnd? && v.pcs[t].gen + 1 < |v.sh.owners| && b == v.sh
    ensures q == UnlockAll(v.pcs[t].gen + 1, 0, v.pcs[t].last, v.pcs[t].next)
    ensures HasLock(q, v.pcs[t].gen + 1, 0) && !HasLock(v.pcs[t], v.pcs[t].gen + 1, 0)
  {
    OnlyCompares(v.sh, v.pcs[t], b, q, t, c) by {
      hide ThreadStep;
    }
    hide ThreadStep;
  }

  lemma AtEndIsNoTask(a: Shared, p: Pc, b: Shared, q: Pc, t: nat, c: Choice)
    requires p.AtEnd?
    ensures !TaskStep(a, p, b, q, t, c)
  {
  }

  lemma AtEndIsNotInside(a: Shared, p: Pc, b: Shared, q: Pc, t: nat, c: Choice)
    requires p.AtEnd?
    ensures !InsideStep(a, p, b, q, t, c)
  {
  }

  lemma OnlyCompares(a: Shared, p: Pc, b: Shared, q: Pc, t: nat, c: Choice)
    requires ThreadStep(a, p, b, q, t, c) && p.AtEnd?
    ensures CompareWithEnd(a, p, b, q)
  {
    hide TaskStep, InsideStep, ResizeStep, CompareWithEnd;
    AtEndIsNoTask(a, p, b, q, t, c);
    AtEndIsNotInside(a, p, b, q, t, c);
    if ResizeStep(a, p, b, q, t, c) {
      AtEndCompares(a, p, b, q, t, c);
    }
  }

  lemma AtEndCompares(a: Shared, p: Pc, b: Shared, q: Pc, t: nat, c: Choice)
    requires ResizeStep(a, p, b, q, t, c) && p.AtEnd?
    ensures CompareWithEnd(a, p, b, q)
  {
    hide SetOwner, StripeMoved, GrownLocks, Flags, Split.Published, PublishedLocks, Split.Wf, CompareWithEnd;
  }

  /** So the invariant survives a step exactly when it is not such a comparison. */
  lemma StepKeepsExactly(v: System, t: nat, w: System, c: Choice)
    requires Inv(v) && Step(v, t, w, c)
    ensures Inv(w) <==> !Overtaken(v, t)
  {
    hide *;
    if Overtaken(v, t) {
      TooLate(v, t, w, c);
    } else {
      StepKeeps(v, t, w, c);
    }
  }

  // Runs.

  datatype Move1 = Move1(t: nat, c: Choice)

  /** A run: every state follows from the one before by a step of some thread. */
  ghost predicate Run(vs: seq<System>, moves: seq<Move1>) {
    && |vs| == |moves| + 1
    && forall x | 0 <= x < |moves| :: Step(vs[x], moves[x].t, vs[x + 1], moves[x].c)
  }

  /** No comparison with the end of the list of lock arrays came too late. */
  ghost predicate InTime(vs: seq<System>, moves: seq<Move1>)
    requires |vs| == |moves| + 1
  {
    forall x | 0 <= x < |moves| :: !Overtaken(vs[x], moves[x].t)
  }

  lemma InitialInv(v: System)
    requires Initial(v)
    ensures Inv(v)
  {
    var n := |v.sh.locks|;
    assert v.sh.s.AllMigrated();
    GoodInitially(v.sh.s, v.sh.locks);
    UnmigratedZero(v.sh.s.migrated);
    NoneUncounted(v.pcs);
    Positive(v.sh.s.hp);
    hide Good, EmptyTable, Flags;
  }

  lemma Positive(hp: nat)
    ensures Min(HashSize(hp), MaxLocks()) >= 1
  {
  }

  /** The invariant holds all along a run that starts with an empty table. */
  lemma {:induction false} RunInv(vs: seq<System>, moves: seq<Move1>, n: nat)
    requires Run(vs, moves) && Initial(vs[0]) && InTime(vs, moves) && n < |vs|
    ensures Inv(vs[n])
  {
    hide Inv, Initial, Step, Overtaken;
    if n == 0 {
      InitialInv(vs[0]);
    } else {
      RunInv(vs, moves, n - 1);
      StepKeeps(vs[n - 1], moves[n - 1].t, vs[n], moves[n - 1].c);
    }
  }
}
