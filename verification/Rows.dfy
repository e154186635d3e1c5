/** Buckets of slots as values, the map they stand for, and what writing one slot does to that map. */
module Rows {
  import opened Bits
  import opened Params
  import opened Hashing

  /** A slot of a bucket: unoccupied, or a live pair with the partial key stored beside it. */
  datatype Slot = Empty | Live(partial: Partial, key: Key, value: Value)

  type Bucket = seq<Slot>

  type Table = seq<Bucket>

  function EmptyBucket(): (b: Bucket)
    ensures |b| == SLOTS && forall j | 0 <= j < |b| :: b[j].Empty?
  {
    seq(SLOTS, _ => Empty)
  }

  function EmptyTable(hp: nat): (t: Table)
    ensures Shaped(t, hp) && forall i | 0 <= i < |t| :: t[i] == EmptyBucket()
  {
    seq(Pow2(hp), _ => EmptyBucket())
  }

  predicate Shaped(t: Table, hp: nat) {
    && |t| == Pow2(hp)
    && forall i | 0 <= i < |t| :: |t[i]| == SLOTS
  }

  predicate LiveAt(t: Table, i: int, j: int) {
    0 <= i < |t| && 0 <= j < |t[i]| && t[i][j].Live?
  }

  ghost predicate Stored(t: Table, k: Key) {
    exists i, j :: LiveAt(t, i, j) && t[i][j].key == k
  }

  ghost predicate StoredIn(t: Table, i: nat, k: Key) {
    exists j :: LiveAt(t, i, j) && t[i][j].key == k
  }

  /** Every live pair carries its partial key and sits in one of its two candidate buckets. */
  ghost predicate Placed(t: Table, hp: nat) {
    forall i, j | LiveAt(t, i, j) :: t[i][j].partial == PartialOf(t[i][j].key) && IsCandidate(hp, t[i][j].key, i)
  }

  /** No key is stored twice. */
  ghost predicate Unique(t: Table) {
    forall i, j, x, y | LiveAt(t, i, j) && LiveAt(t, x, y) && t[i][j].key == t[x][y].key :: i == x && j == y
  }

  ghost predicate Holds(t: Table, m: map<Key, Value>) {
    && (forall i, j | LiveAt(t, i, j) :: t[i][j].key in m && m[t[i][j].key] == t[i][j].value)
    && (forall k | k in m :: Stored(t, k))
  }

  /** The buckets are a well-formed cuckoo table with the contents of m. */
  ghost predicate Represents(t: Table, hp: nat, m: map<Key, Value>) {
    Shaped(t, hp) && Placed(t, hp) && Unique(t) && Holds(t, m)
  }

  /** The map is determined by the buckets. */
  lemma RepresentsOne(t: Table, hp: nat, m: map<Key, Value>, n: map<Key, Value>)
    requires Represents(t, hp, m) && Represents(t, hp, n)
    ensures m == n
  {
    forall k | k in m
      ensures k in n && n[k] == m[k]
    {
      var i, j :| LiveAt(t, i, j) && t[i][j].key == k;
    }
    forall k | k in n
      ensures k in m
    {
      var i, j :| LiveAt(t, i, j) && t[i][j].key == k;
    }
  }

  lemma EmptyRepresents(hp: nat)
    ensures Represents(EmptyTable(hp), hp, map[])
  {
  }

  /** A stored key is found in its home bucket or in its other bucket, and nowhere else. */
  lemma Locate(t: Table, hp: nat, m: map<Key, Value>, k: Key)
    requires Represents(t, hp, m)
    ensures k in m <==> StoredIn(t, Home(hp, k), k) || StoredIn(t, Other(hp, k), k)
  {
    if k in m {
      assert Stored(t, k);
      var i, j :| LiveAt(t, i, j) && t[i][j].key == k;
      assert IsCandidate(hp, k, i);
    }
  }

  lemma CandidateBound(t: Table, hp: nat, k: Key)
    requires Shaped(t, hp)
    ensures Home(hp, k) < |t| && Other(hp, k) < |t|
  {
    AltOfCandidate(hp, k, Home(hp, k));
  }

  function Put(t: Table, i: nat, j: nat, s: Slot): (r: Table)
    requires i < |t| && j < |t[i]|
  {
    t[i := t[i][j := s]]
  }

  /** Writing a new pair into an empty slot of a candidate bucket adds it to the map. */
  lemma AddPair(t: Table, hp: nat, m: map<Key, Value>, i: nat, j: nat, k: Key, v: Value)
    requires Represents(t, hp, m) && k !in m && IsCandidate(hp, k, i)
    requires i < |t| && j < SLOTS && t[i][j].Empty?
    ensures Represents(Put(t, i, j, Live(PartialOf(k), k, v)), hp, m[k := v])
  {
    hide Home, Other;
    var s := Live(PartialOf(k), k, v);
    var r := Put(t, i, j, s);
    forall x, y | LiveAt(r, x, y)
      ensures (x == i && y == j && r[x][y] == s) || (LiveAt(t, x, y) && r[x][y] == t[x][y] && t[x][y].key in m)
    {
    }
    assert LiveAt(r, i, j) && r[i][j].key == k;
    StoredStill(t, r, m, i, j, s);
  }

  /** Keys stored away from (i, j) stay stored when only the slot (i, j) is written. */
  lemma StoredStill(t: Table, r: Table, m: map<Key, Value>, i: nat, j: nat, s: Slot)
    requires i < |t| && j < |t[i]| && r == Put(t, i, j, s)
    requires Holds(t, m)
    ensures forall k | k in m && (t[i][j].Live? ==> t[i][j].key != k) :: Stored(r, k)
  {
    forall k | k in m && (t[i][j].Live? ==> t[i][j].key != k)
      ensures Stored(r, k)
    {
      var x, y :| LiveAt(t, x, y) && t[x][y].key == k;
      assert LiveAt(r, x, y) && r[x][y].key == k;
    }
  }

  /** Emptying a live slot removes its key from the map. */
  lemma RemovePair(t: Table, hp: nat, m: map<Key, Value>, i: nat, j: nat)
    requires Represents(t, hp, m) && LiveAt(t, i, j)
    ensures Represents(Put(t, i, j, Empty), hp, m - {t[i][j].key})
  {
    var r := Put(t, i, j, Empty);
    forall x, y | LiveAt(r, x, y)
      ensures LiveAt(t, x, y) && r[x][y] == t[x][y] && t[x][y].key != t[i][j].key
    {
    }
    StoredStill(t, r, m, i, j, Empty);
  }

  /** Changing the value of a live slot changes the value of its key. */
  lemma SetValue(t: Table, hp: nat, m: map<Key, Value>, i: nat, j: nat, v: Value)
    requires Represents(t, hp, m) && LiveAt(t, i, j)
    ensures Represents(Put(t, i, j, t[i][j].(value := v)), hp, m[t[i][j].key := v])
  {
    var s := t[i][j].(value := v);
    var r := Put(t, i, j, s);
    forall x, y | LiveAt(r, x, y)
      ensures LiveAt(t, x, y) && r[x][y].key == t[x][y].key && r[x][y].partial == t[x][y].partial
      ensures (x == i && y == j && r[x][y].value == v) || (t[x][y].key != s.key && r[x][y] == t[x][y])
    {
    }
    assert LiveAt(r, i, j);
    StoredStill(t, r, m, i, j, s);
  }

  /** One displacement: the pair at (f, fs) moves to the slot (g, gs). */
  function Displaced(t: Table, f: nat, fs: nat, g: nat, gs: nat): (r: Table)
    requires LiveAt(t, f, fs) && g < |t| && gs < |t[g]|
  {
    Put(Put(t, g, gs, t[f][fs]), f, fs, Empty)
  }

  /** Writing the target first and clearing the source last is the same as the other way round. */
  lemma DisplacedByRemoval(t: Table, f: nat, fs: nat, g: nat, gs: nat)
    requires LiveAt(t, f, fs) && g < |t| && gs < |t[g]| && t[g][gs].Empty?
    ensures Displaced(t, f, fs, g, gs) == Put(Put(t, f, fs, Empty), g, gs, t[f][fs])
  {
    var r, q := Displaced(t, f, fs, g, gs), Put(Put(t, f, fs, Empty), g, gs, t[f][fs]);
    assert forall x | 0 <= x < |t| :: r[x] == q[x];
  }

  /** A displacement into an empty slot of the alternate bucket leaves the map alone. */
  lemma DisplaceKeeps(t: Table, hp: nat, m: map<Key, Value>, f: nat, fs: nat, g: nat, gs: nat)
    requires Represents(t, hp, m) && LiveAt(t, f, fs)
    requires g == AltIndex(hp, t[f][fs].partial, f) && g < |t| && gs < SLOTS && t[g][gs].Empty?
    ensures Represents(Displaced(t, f, fs, g, gs), hp, m)
  {
    var s := t[f][fs];
    AltOfCandidate(hp, s.key, f);
    RemovePair(t, hp, m, f, fs);
    hide Home, Other;
    AddPair(Put(t, f, fs, Empty), hp, m - {s.key}, g, gs, s.key, s.value);
    assert (m - {s.key})[s.key := s.value] == m;
    DisplacedByRemoval(t, f, fs, g, gs);
  }
}
