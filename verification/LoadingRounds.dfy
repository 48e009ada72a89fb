/**
  How often nodes have to be loaded before an operation on a partly loaded trie goes through. A calculation
  tries its operations, loads what they miss and tries again, at most ten times.
 */
module LoadingRounds {
  import opened Wrappers
  import opened SparseTrie

  // ---------------------------------------------------------------------------
  // One deletion

  /** The branch has a single other child. */
  ghost predicate Pair(children: seq<Full>, n: nat) {
    |Occupied(children)| == 2 && n < |children| && !children[n].Null?
  }

  /** The loaded branch has a single other child, and that one is remote. */
  ghost predicate Blocked(children: seq<Sparse>, n: nat) {
    && n < |children| && !children[n].Nil? && |Used(children)| == 2
    && Other(children, n, 0) < |children| && children[Other(children, n, 0)].Remote?
  }

  /** The branches with two children on the way along `k`. */
  ghost function Pairs(t: Full, k: Nibbles): nat {
    match t
    case Extension(key, next) => if key <= k then Pairs(next, k[|key|..]) else 0
    case Branch(children) =>
      if |k| > 0 && k[0] < |children| then
        (if Pair(children, k[0]) then 1 else 0) + Pairs(children[k[0]], k[1..])
      else 0
    case _ => 0
  }

  /** How often the deletion of `k` will miss a node: once on its way, and once at each branch it may dissolve. */
  ghost function Misses(s: Sparse, k: Nibbles): nat {
    match s
    case Remote(full) => 1 + Pairs(full, k)
    case Path(key, next) => if key <= k then Misses(next, k[|key|..]) else 0
    case Fork(children) =>
      if |k| > 0 && k[0] < |children| then
        (if Blocked(children, k[0]) then 1 else 0) + Misses(children[k[0]], k[1..])
      else 0
    case _ => 0
  }

  lemma {:induction false} DeleteMisses(s: Sparse, k: Nibbles)
    requires IsPath(k, |k|) && (s.Nil? || Sound(s, |k|))
    ensures Delete(s, k).Absent? <==> Misses(s, k) > 0
  {
    match s
    case Path(key, next) =>
      if key <= k {
        DeleteMisses(next, k[|key|..]);
      }
    case Fork(children) => DeleteMisses(children[k[0]], k[1..]);
    case _ =>
  }

  lemma LoadedPair(children: seq<Full>, s: Sparse, n: nat)
    requires n < |children|
    ensures var loaded := seq(|children|, i requires 0 <= i < |children| =>
                              if children[i].Null? then Nil else Remote(children[i]));
            (s.Nil? <==> children[n].Null?) ==> (Blocked(loaded[n := s], n) <==> Pair(children, n))
  {
    var loaded := seq(|children|, i requires 0 <= i < |children| =>
                      if children[i].Null? then Nil else Remote(children[i]));
    if s.Nil? <==> children[n].Null? {
      assert Used(loaded[n := s]) == Occupied(children);
      if Pair(children, n) {
        TwoUsed(loaded[n := s], n);
      }
    }
  }

  lemma {:induction false} LoadMisses(t: Full, k: Nibbles, n: nat, len: nat)
    requires Solid(t, len)
    ensures Misses(Load(t, k, n).0, k) == Pairs(t, k)
  {
    match t
    case Extension(key, next) =>
      if key <= k {
        LoadMisses(next, k[|key|..], n, len - |key|);
      }
    case Branch(children) =>
      if |k| > 0 && k[0] < |children| {
        var (s, more) := Load(children[k[0]], k[1..], n);
        LoadedPair(children, s, k[0]);
        if !children[k[0]].Null? {
          LoadMisses(children[k[0]], k[1..], n, len - 1);
        }
      }
    case _ =>
  }

  lemma {:induction false} OtherSame(c: seq<Sparse>, d: seq<Sparse>, n: nat, from: nat)
    requires |c| == |d| && from <= |c| && forall i :: 0 <= i < |c| && i != n ==> (c[i].Nil? <==> d[i].Nil?)
    ensures Other(c, n, from) == Other(d, n, from)
    decreases |c| - from
  {
    if from < |c| {
      OtherSame(c, d, n, from + 1);
    }
  }

  /** A child that is not remote does not change which children there are. */
  lemma Replaced(children: seq<Sparse>, i: nat, s: Sparse, n: nat)
    requires i < |children| && n < |children| && (s.Nil? <==> children[i].Nil?)
    ensures Used(children[i := s]) == Used(children)
    ensures Other(children[i := s], n, 0) == Other(children, n, 0)
    ensures i == n ==> (Blocked(children[i := s], n) <==> Blocked(children, n))
    ensures i != n && !s.Remote? ==>
              (Blocked(children[i := s], n) <==> Blocked(children, n) && Other(children, n, 0) != i)
  {
    OtherSame(children[i := s], children, n, 0);
  }

  lemma RevealedPresent(s: Sparse, path: Nibbles, n: nat, len: nat)
    requires Sound(s, len)
    ensures !Reveal(s, path, n).0.Nil? && !Reveal(s, path, n).0.Remote?
  {
    RevealSound(s, path, n, len);
    RevealWalks(s, path, n);
  }

  /** Loading what the deletion missed takes one miss away. */
  lemma {:induction false} LoadingHelps(s: Sparse, k: Nibbles, n: nat)
    requires IsPath(k, |k|) && Sound(s, |k|) && Delete(s, k).Absent?
    ensures Misses(Reveal(s, Delete(s, k).path, n).0, k) == Misses(s, k) - 1
    decreases s, 1
  {
    match s
    case Remote(full) => LoadMisses(full, k, n, |k|);
    case Path(key, next) =>
      LoadingHelps(next, k[|key|..], n);
      var path := Delete(next, k[|key|..]).path;
      assert key <= key + path && (key + path)[|key|..] == path;
    case Fork(children) =>
      ForkHelped(children, k, n);
  }

  lemma ForkHelped(children: seq<Sparse>, k: Nibbles, n: nat)
    requires IsPath(k, |k|) && Sound(Fork(children), |k|) && Delete(Fork(children), k).Absent?
    ensures Misses(Reveal(Fork(children), Delete(Fork(children), k).path, n).0, k) == Misses(Fork(children), k) - 1
    decreases Fork(children), 0
  {
    var c := children[k[0]];
    if c.Remote? {
      LoadMisses(c.full, k[1..], n, |k| - 1);
      ChildRevealed(children, k, k[1..], n);
      assert [k[0]] + k[1..] == k;
    } else if Blocked(children, k[0]) {
      OrphanRevealed(children, k, n);
    } else {
      LoadingHelps(c, k[1..], n);
      ChildRevealed(children, k, Delete(c, k[1..]).path, n);
    }
  }

  lemma ChildRevealed(children: seq<Sparse>, k: Nibbles, path: Nibbles, n: nat)
    requires IsPath(k, |k|) && Sound(Fork(children), |k|) && !children[k[0]].Nil?
    ensures Misses(Reveal(Fork(children), [k[0]] + path, n).0, k) ==
            Misses(Fork(children), k) - Misses(children[k[0]], k[1..])
              + Misses(Reveal(children[k[0]], path, n).0, k[1..])
  {
    hide Blocked, Sound;
    ChildSound(children, k);
    assert ([k[0]] + path)[1..] == path;
    RevealedPresent(children[k[0]], path, n, |k| - 1);
    Replaced(children, k[0], Reveal(children[k[0]], path, n).0, k[0]);
  }

  lemma ChildSound(children: seq<Sparse>, k: Nibbles)
    requires IsPath(k, |k|) && Sound(Fork(children), |k|)
    ensures |children| == 16 && |k| > 0 && k[0] < 16
    ensures forall i :: 0 <= i < 16 && !children[i].Nil? ==> Sound(children[i], |k| - 1)
  {
  }

  lemma OrphanRevealed(children: seq<Sparse>, k: Nibbles, n: nat)
    requires IsPath(k, |k|) && Sound(Fork(children), |k|) && Blocked(children, k[0])
    ensures Misses(Reveal(Fork(children), [Other(children, k[0], 0)], n).0, k) == Misses(Fork(children), k) - 1
  {
    var o := Other(children, k[0], 0);
    assert [o][1..] == [];
    RevealedPresent(children[o], [], n, |k| - 1);
    Replaced(children, o, Reveal(children[o], [], n).0, k[0]);
  }

  /** One attempt to delete `k`, and the loading of what it missed. */
  ghost function Round(t: Trie, k: Nibbles): (r: Trie)
    requires t.Valid() && IsPath(k, KEY_NIBBLES)
    ensures r.Valid() && r.AsMap() == t.AsMap()
  {
    match t.DeleteKey(k).1
    case DeleteNotFound(path) => t.AddProof(path)
    case _ => t
  }

  ghost function Rounds(t: Trie, k: Nibbles, n: nat): (r: Trie)
    requires t.Valid() && IsPath(k, KEY_NIBBLES)
    ensures r.Valid() && r.AsMap() == t.AsMap()
    decreases n
  {
    if n == 0 then t else Rounds(Round(t, k), k, n - 1)
  }

  lemma RoundHelps(t: Trie, k: Nibbles)
    requires t.Valid() && IsPath(k, KEY_NIBBLES)
    ensures t.DeleteKey(k).1.DeleteNotFound? <==> Misses(t.root, k) > 0
    ensures Misses(Round(t, k).root, k) == if Misses(t.root, k) > 0 then Misses(t.root, k) - 1 else 0
  {
    if t.root.Remote? {
      if t.root.full.Null? {
        assert Misses(t.root, k) == 1;
      } else {
        LoadMisses(t.root.full, k, |t.values|, KEY_NIBBLES);
      }
    } else {
      DeleteMisses(t.root, k);
      if Delete(t.root, k).Absent? {
        LoadingHelps(t.root, k, |t.values|);
      }
    }
  }

  /** A deletion goes through after exactly as many rounds as it misses nodes. */
  lemma {:induction false} RoundsNeeded(t: Trie, k: Nibbles, n: nat)
    requires t.Valid() && IsPath(k, KEY_NIBBLES)
    ensures Rounds(t, k, n).DeleteKey(k).1.DeleteNotFound? <==> n < Misses(t.root, k)
    decreases n
  {
    RoundHelps(t, k);
    if n > 0 {
      RoundsNeeded(Round(t, k), k, n - 1);
    }
  }

  /** The attempts that a calculation makes. */
  const ATTEMPTS := 10

  /** Over a database trie of which nothing is loaded, a deletion goes through within the attempts of a calculation
      exactly when there are at most eight branches with two children on its way. */
  lemma TenRoundsSuffice(database: Full, k: Nibbles)
    requires Canonical(database, KEY_NIBBLES) && IsPath(k, KEY_NIBBLES)
    ensures !Rounds(Trie(Remote(database), []), k, ATTEMPTS - 1).DeleteKey(k).1.DeleteNotFound? <==>
              Pairs(database, k) <= 8
  {
    RoundsNeeded(Trie(Remote(database), []), k, ATTEMPTS - 1);
  }

  function Zeros(len: nat): Nibbles {
    seq(len, i => 0)
  }

  /** A key below `n` branches with two children each. */
  function Tower(n: nat, len: nat): Full
    requires n <= len
  {
    if n == 0 then Leaf(Zeros(len), [1])
    else Branch(seq(16, i => if i == 0 then Tower(n - 1, len - 1)
                             else if i == 1 then Leaf(Zeros(len - 1), [2])
                             else Null))
  }

  lemma {:induction false} TowerPairs(n: nat, len: nat)
    requires n <= len
    ensures Solid(Tower(n, len), len) && Pairs(Tower(n, len), Zeros(len)) == n
            && Get(Tower(n, len), Zeros(len)) == Some([1])
  {
    if n > 0 {
      TowerPairs(n - 1, len - 1);
      assert Zeros(len)[1..] == Zeros(len - 1);
      assert Occupied(Tower(n, len).children) == {0, 1};
    }
  }

  /** A stored key whose deletion is not through after ten rounds, and is after an eleventh. */
  lemma EleventhRound()
    ensures var t := Trie(Remote(Tower(9, KEY_NIBBLES)), []);
            && Canonical(t.root.full, KEY_NIBBLES) && Zeros(KEY_NIBBLES) in t.AsMap()
            && Rounds(t, Zeros(KEY_NIBBLES), 9).DeleteKey(Zeros(KEY_NIBBLES)).1.DeleteNotFound?
            && Rounds(t, Zeros(KEY_NIBBLES), 10).DeleteKey(Zeros(KEY_NIBBLES)).1.DeleteOk?
  {
    var t, k := Trie(Remote(Tower(9, KEY_NIBBLES)), []), Zeros(KEY_NIBBLES);
    TowerPairs(9, KEY_NIBBLES);
    t.AtKey(k);
    RoundsNeeded(t, k, 9);
    RoundsNeeded(t, k, 10);
  }

  // ---------------------------------------------------------------------------
  // Several operations: what others do to the way of a deletion

  /** The key is there. */
  ghost predicate Present(s: Sparse, k: Nibbles) {
    match s
    case Nil => false
    case Tip(key, _) => key == k
    case Path(key, next) => key <= k && Present(next, k[|key|..])
    case Fork(children) => |k| > 0 && k[0] < |children| && Present(children[k[0]], k[1..])
    case Remote(full) => Get(full, k).Some?
  }

  /** A child off the way is remote. */
  ghost predicate Strays(children: seq<Sparse>, n: nat) {
    exists i :: 0 <= i < |children| && i != n && children[i].Remote?
  }

  /** The branches on the way along `k`. */
  ghost function Branches(t: Full, k: Nibbles): nat {
    match t
    case Extension(key, next) => if key <= k then Branches(next, k[|key|..]) else 0
    case Branch(children) => if |k| > 0 && k[0] < |children| then 1 + Branches(children[k[0]], k[1..]) else 0
    case _ => 0
  }

  /** A bound on the misses of a deletion that no other operation raises: the branches on the way with a remote
      child off it. */
  ghost function Debt(s: Sparse, k: Nibbles): nat {
    match s
    case Remote(full) => 1 + Branches(full, k)
    case Path(key, next) => if key <= k then Debt(next, k[|key|..]) else 0
    case Fork(children) =>
      if |k| == 0 || k[0] >= |children| then 0
      else (if Strays(children, k[0]) then 1 else 0) + Debt(children[k[0]], k[1..])
    case _ => 0
  }

  lemma {:induction false} LoadDebt(t: Full, k: Nibbles, n: nat)
    requires Get(t, k).Some?
    ensures Present(Load(t, k, n).0, k) && Debt(Load(t, k, n).0, k) <= Branches(t, k)
  {
    match t
    case Extension(key, next) => LoadDebt(next, k[|key|..], n);
    case Branch(children) => LoadDebt(children[k[0]], k[1..], n);
    case _ =>
  }

  /** However far along `p`, loading costs the key nothing. */
  lemma {:induction false} LoadAnyDebt(t: Full, p: Nibbles, n: nat, k: Nibbles)
    requires Get(t, k).Some?
    ensures Present(Load(t, p, n).0, k) && Debt(Load(t, p, n).0, k) <= 1 + Branches(t, k)
  {
    match t
    case Extension(key, next) =>
      if key <= p {
        LoadAnyDebt(next, p[|key|..], n, k[|key|..]);
      }
    case Branch(children) =>
      if |p| > 0 && p[0] < |children| {
        if p[0] == k[0] {
          LoadAnyDebt(children[k[0]], p[1..], n, k[1..]);
        }
      }
    case _ =>
  }

  lemma StraysOnWay(children: seq<Sparse>, n: nat, s: Sparse)
    requires n < |children|
    ensures Strays(children[n := s], n) <==> Strays(children, n)
  {
    forall i | 0 <= i < |children| && i != n
      ensures children[n := s][i] == children[i]
    {
    }
  }

  lemma StraysOffWay(children: seq<Sparse>, n: nat, i: nat, s: Sparse)
    requires i < |children| && i != n && !s.Remote?
    ensures Strays(children[i := s], n) ==> Strays(children, n)
  {
    var next := children[i := s];
    if j :| 0 <= j < |next| && j != n && next[j].Remote? {
      assert children[j].Remote?;
    }
  }

  /** Loading along any path keeps the key and raises no debt. */
  lemma {:induction false} RevealDebt(s: Sparse, p: Nibbles, n: nat, k: Nibbles)
    requires Present(s, k)
    ensures Present(Reveal(s, p, n).0, k) && Debt(Reveal(s, p, n).0, k) <= Debt(s, k)
  {
    match s
    case Remote(full) => LoadAnyDebt(full, p, n, k);
    case Path(key, next) =>
      if key <= p {
        RevealDebt(next, p[|key|..], n, k[|key|..]);
      }
    case Fork(children) =>
      if |p| > 0 && p[0] < |children| {
        var c := Reveal(children[p[0]], p[1..], n).0;
        if p[0] == k[0] {
          RevealDebt(children[k[0]], p[1..], n, k[1..]);
          StraysOnWay(children, k[0], c);
        } else {
          RevealWalks(children[p[0]], p[1..], n);
          StraysOffWay(children, k[0], p[0], c);
        }
      }
    case _ =>
  }

  /** Loading what the deletion missed lowers its debt. */
  lemma {:induction false} AttemptHelps(s: Sparse, k: Nibbles, n: nat)
    requires IsPath(k, |k|) && Sound(s, |k|) && Present(s, k) && Delete(s, k).Absent?
    ensures Debt(Reveal(s, Delete(s, k).path, n).0, k) < Debt(s, k)
    decreases s, 1
  {
    match s
    case Remote(full) => LoadDebt(full, k, n);
    case Path(key, next) =>
      AttemptHelps(next, k[|key|..], n);
      var path := Delete(next, k[|key|..]).path;
      assert key <= key + path && (key + path)[|key|..] == path;
    case Fork(children) => ForkAttemptHelps(children, k, n);
  }

  lemma ForkAttemptHelps(children: seq<Sparse>, k: Nibbles, n: nat)
    requires IsPath(k, |k|) && Sound(Fork(children), |k|) && Present(Fork(children), k)
             && Delete(Fork(children), k).Absent?
    ensures Debt(Reveal(Fork(children), Delete(Fork(children), k).path, n).0, k) < Debt(Fork(children), k)
    decreases Fork(children), 0
  {
    ChildSound(children, k);
    var c := children[k[0]];
    if c.Remote? {
      LoadDebt(c.full, k[1..], n);
      StraysOnWay(children, k[0], Reveal(c, k[1..], n).0);
    } else if Blocked(children, k[0]) {
      OrphanPaid(children, k, n);
    } else {
      AttemptHelps(c, k[1..], n);
      var path := Delete(c, k[1..]).path;
      assert ([k[0]] + path)[1..] == path;
      StraysOnWay(children, k[0], Reveal(c, path, n).0);
    }
  }

  lemma OrphanPaid(children: seq<Sparse>, k: Nibbles, n: nat)
    requires IsPath(k, |k|) && Sound(Fork(children), |k|) && Blocked(children, k[0])
    ensures Debt(Reveal(Fork(children), [Other(children, k[0], 0)], n).0, k) < Debt(Fork(children), k)
  {
    var o := Other(children, k[0], 0);
    assert [o][1..] == [];
    TwoUsed(children, k[0]);
    RevealWalks(children[o], [], n);
    var next := children[o := Reveal(children[o], [], n).0];
    assert Strays(children, k[0]);
    forall i | 0 <= i < |next| && i != k[0]
      ensures !next[i].Remote?
    {
      assert i == o || i !in Used(children);
    }
  }

  // ---------------------------------------------------------------------------
  // Nibbles in front of a node, and splits

  lemma UnderDebt(key: Nibbles, s: Sparse, k: Nibbles)
    requires key <= k && Present(s, k[|key|..])
    ensures Present(Under(key, s), k) && Debt(Under(key, s), k) == Debt(s, k[|key|..])
  {
    if s.Tip? || s.Path? {
      assert key + s.key <= k <==> s.key <= k[|key|..];
      assert s.Tip? ==> key + s.key == k;
      if s.Path? {
        assert k[|key + s.key|..] == k[|key|..][|s.key|..];
      }
    }
    if key == [] {
      assert k[0..] == k;
    }
  }

  lemma TwoDebt(n1: nat, s1: Sparse, n2: nat, s2: Sparse, k: Nibbles)
    requires n1 != n2 && n2 < 16 && |k| > 0 && k[0] == n2 && Present(s2, k[1..]) && !s1.Remote?
    ensures var t := Fork(TwoChildren(n1, s1, n2, s2)); Present(t, k) && Debt(t, k) == Debt(s2, k[1..])
  {
    var children := TwoChildren(n1, s1, n2, s2);
    assert children[n2] == s2;
    assert forall i :: 0 <= i < |children| && i != n2 ==> !children[i].Remote?;
  }

  /** A split beside the way of a key costs it nothing. */
  lemma SplitDebt(k1: Nibbles, value: nat, k2: Nibbles, s2: Sparse, k: Nibbles)
    requires CommonPrefix(k1, k2) < |k1| && CommonPrefix(k1, k2) < |k2|
    requires IsPath(k1, |k1|) && IsPath(k2, |k2|) && k2 <= k && Present(s2, k[|k2|..])
    ensures var t := SplitAt(k1, Tip([], value), k2, s2); Present(t, k) && Debt(t, k) == Debt(s2, k[|k2|..])
  {
    hide Present, Debt, Under;
    var p := CommonPrefix(k1, k2);
    SliceRest(k, k2, p);
    UnderDebt(k2[p + 1..], s2, k[p + 1..]);
    TipUnder(k1[p + 1..], value);
    var u1, u2 := Under(k1[p + 1..], Tip([], value)), Under(k2[p + 1..], s2);
    TwoDebt(k1[p], u1, k2[p], u2, k[p..]);
    UnderDebt(k1[..p], Fork(TwoChildren(k1[p], u1, k2[p], u2)), k);
  }

  lemma TipUnder(key: Nibbles, value: nat)
    ensures Under(key, Tip([], value)) == Tip(key, value)
  {
  }

  lemma SliceRest(k: Nibbles, k2: Nibbles, p: nat)
    requires p < |k2| && k2 <= k
    ensures k2[..p] <= k && k[|k2[..p]|..] == k[p..] && k[p] == k2[p] && k[p..][1..] == k[p + 1..]
    ensures k2[p + 1..] <= k[p + 1..] && k[p + 1..][|k2[p + 1..]|..] == k[|k2|..]
  {
  }

  /** An insertion keeps every other key and raises no debt. */
  lemma {:induction false} InsertDebt(s: Sparse, j: Nibbles, value: nat, k: Nibbles)
    requires IsPath(j, |j|) && (s.Nil? || Sound(s, |j|)) && |k| == |j| && Present(s, k) && Insert(s, j, value).Done?
    ensures var t := Insert(s, j, value).trie; Present(t, k) && Debt(t, k) <= Debt(s, k)
  {
    match s
    case Tip(key, was) =>
      if key != j {
        SplitDebt(j, value, key, Tip([], was), k);
      }
    case Path(key, next) =>
      if key <= j {
        InsertDebt(next, j[|key|..], value, k[|key|..]);
      } else {
        SplitDebt(j, value, key, next, k);
      }
    case Fork(children) =>
      var c := Insert(children[j[0]], j[1..], value).trie;
      if j[0] == k[0] {
        InsertDebt(children[k[0]], j[1..], value, k[1..]);
        StraysOnWay(children, k[0], c);
      } else {
        InsertedPresent(children[j[0]], j[1..], value);
        StraysOffWay(children, k[0], j[0], c);
      }
    case _ =>
  }

  lemma InsertedPresent(s: Sparse, j: Nibbles, value: nat)
    requires IsPath(j, |j|) && (s.Nil? || Sound(s, |j|)) && Insert(s, j, value).Done?
    ensures !Insert(s, j, value).trie.Remote? && !Insert(s, j, value).trie.Nil?
  {
  }

  /** A deletion keeps every other key and raises no debt. */
  lemma {:induction false} DeleteDebt(s: Sparse, j: Nibbles, k: Nibbles)
    requires IsPath(j, |j|) && (s.Nil? || Sound(s, |j|)) && |k| == |j| && j != k && Present(s, k)
             && Delete(s, j).Removed?
    ensures var t := Delete(s, j).trie; Present(t, k) && Debt(t, k) <= Debt(s, k)
    decreases s, 1
  {
    match s
    case Path(key, next) =>
      assert j == key + j[|key|..] && k == key + k[|key|..];
      DeleteDebt(next, j[|key|..], k[|key|..]);
      UnderDebt(key, Delete(next, j[|key|..]).trie, k);
    case Fork(children) => ForkDeleteDebt(children, j, k);
    case _ =>
  }

  lemma ForkDeleteDebt(children: seq<Sparse>, j: Nibbles, k: Nibbles)
    requires IsPath(j, |j|) && Sound(Fork(children), |j|) && |k| == |j| && j != k
    requires Present(Fork(children), k) && Delete(Fork(children), j).Removed?
    ensures var t := Delete(Fork(children), j).trie; Present(t, k) && Debt(t, k) <= Debt(Fork(children), k)
    decreases Fork(children), 0
  {
    ChildSound(children, j);
    var c := Delete(children[j[0]], j[1..]).trie;
    DeleteSound(children[j[0]], j[1..]);
    if j[0] == k[0] {
      assert j == [j[0]] + j[1..] && k == [k[0]] + k[1..];
      DeleteDebt(children[k[0]], j[1..], k[1..]);
      StraysOnWay(children, k[0], c);
    } else if c.Nil? {
      WithoutDebt(children, j[0], k);
    } else {
      StraysOffWay(children, k[0], j[0], c);
    }
  }

  lemma WithoutDebt(children: seq<Sparse>, n: nat, k: Nibbles)
    requires n in Used(children) && Present(Fork(children), k) && k[0] != n
    ensures Present(Without(children, n), k) && Debt(Without(children, n), k) <= Debt(Fork(children), k)
  {
    if |Used(children)| == 2 {
      TwoUsed(children, n);
      assert k[0] in Used(children);
      assert [k[0]] <= k && k[|[k[0]]|..] == k[1..];
      UnderDebt([k[0]], children[k[0]], k);
    } else {
      StraysOffWay(children, k[0], n, Nil);
    }
  }

  // ---------------------------------------------------------------------------
  // Loading commutes with the operations

  /** A node with nibbles in front is loaded like the node itself. */
  lemma UnderReveal(key: Nibbles, s: Sparse, q: Nibbles, n: nat)
    requires s.Remote? ==> s.full.Branch?
    ensures Reveal(Under(key, s), q, n).0 == if key <= q then Under(key, Reveal(s, q[|key|..], n).0) else Under(key, s)
  {
    if key == [] {
      assert q[0..] == q;
    } else if s.Path? {
      assert key + s.key <= q <==> key <= q && s.key <= q[|key|..];
      if key + s.key <= q {
        assert q[|key + s.key|..] == q[|key|..][|s.key|..];
      }
    }
  }

  lemma TwoReveal(n1: nat, value: nat, key: Nibbles, n2: nat, s: Sparse, q: Nibbles, n: nat)
    requires n1 != n2 && n1 < 16 && n2 < 16
    ensures Reveal(Fork(TwoChildren(n1, Tip(key, value), n2, s)), q, n).0 ==
            Fork(TwoChildren(n1, Tip(key, value), n2, if |q| > 0 && q[0] == n2 then Reveal(s, q[1..], n).0 else s))
  {
    var children := TwoChildren(n1, Tip(key, value), n2, s);
    if |q| > 0 && q[0] < 16 {
      var r := Reveal(children[q[0]], q[1..], n).0;
      assert children[q[0] := r] == TwoChildren(n1, Tip(key, value), n2, if q[0] == n2 then r else s);
    }
  }

  lemma SplitReveal(k1: Nibbles, value: nat, k2: Nibbles, s: Sparse, q: Nibbles, n: nat)
    requires CommonPrefix(k1, k2) < |k1| && CommonPrefix(k1, k2) < |k2| && IsPath(k1, |k1|) && IsPath(k2, |k2|)
    requires s.Remote? ==> s.full.Branch?
    ensures Reveal(SplitAt(k1, Tip([], value), k2, s), q, n).0 ==
            SplitAt(k1, Tip([], value), k2, if k2 <= q then Reveal(s, q[|k2|..], n).0 else s)
  {
    hide Under, Reveal, TwoChildren;
    var p := CommonPrefix(k1, k2);
    var rest := k2[p + 1..];
    TipUnder(k1[p + 1..], value);
    TwoReveal(k1[p], value, k1[p + 1..], k2[p], Under(rest, s), if k2[..p] <= q then q[p..] else [], n);
    UnderReveal(k1[..p], Fork(TwoChildren(k1[p], Tip(k1[p + 1..], value), k2[p], Under(rest, s))), q, n);
    SlicePrefix(k2, p, q);
    if k2[..p + 1] <= q {
      UnderReveal(rest, s, q[p + 1..], n);
    }
  }

  lemma SlicePrefix(k2: Nibbles, p: nat, q: Nibbles)
    requires p < |k2|
    ensures k2[..p + 1] <= q <==> k2[..p] <= q && |q| > p && q[p] == k2[p]
    ensures k2 <= q <==> k2[..p + 1] <= q && k2[p + 1..] <= q[p + 1..]
    ensures k2[..p] <= q ==> q[|k2[..p]|..] == q[p..]
    ensures |q| > p ==> q[p..][1..] == q[p + 1..] && q[p..][0] == q[p]
    ensures k2 <= q ==> q[p + 1..][|k2[p + 1..]|..] == q[|k2|..]
  {
    assert k2 == k2[..p + 1] + k2[p + 1..];
    assert k2[..p + 1] == k2[..p] + [k2[p]];
    if |q| > p {
      assert q == q[..p + 1] + q[p + 1..] && q[..p + 1] == q[..p] + [q[p]];
    }
  }

  /** The insertion finds the same when more is loaded. */
  lemma {:induction false} InsertReveal(s: Sparse, j: Nibbles, value: nat, q: Nibbles, n: nat)
    requires IsPath(j, |j|) && (s.Nil? || Sound(s, |j|)) && Insert(s, j, value).Done?
    ensures var r := Reveal(s, q, n).0;
            && (r.Nil? || Sound(r, |j|)) && Insert(r, j, value).Done?
            && Insert(r, j, value).trie == Reveal(Insert(s, j, value).trie, q, n).0
    decreases s, 1
  {
    if !s.Nil? {
      RevealSound(s, q, n, |j|);
    }
    match s
    case Tip(key, was) =>
      if key != j {
        SplitReveal(j, value, key, Tip([], was), q, n);
      }
    case Path(key, next) =>
      if key <= j {
        if key <= q {
          InsertReveal(next, j[|key|..], value, q[|key|..], n);
        }
      } else {
        SplitReveal(j, value, key, next, q, n);
      }
    case Fork(children) => ForkInsertReveal(children, j, value, q, n);
    case _ =>
  }

  lemma ForkInsertReveal(children: seq<Sparse>, j: Nibbles, value: nat, q: Nibbles, n: nat)
    requires IsPath(j, |j|) && Sound(Fork(children), |j|) && Insert(Fork(children), j, value).Done?
    ensures var r := Reveal(Fork(children), q, n).0;
            && Sound(r, |j|) && Insert(r, j, value).Done?
            && Insert(r, j, value).trie == Reveal(Insert(Fork(children), j, value).trie, q, n).0
    decreases Fork(children), 0
  {
    RevealSound(Fork(children), q, n, |j|);
    ChildSound(children, j);
    var c := Insert(children[j[0]], j[1..], value).trie;
    if |q| > 0 && q[0] < 16 {
      var r := Reveal(children[q[0]], q[1..], n).0;
      if q[0] == j[0] {
        InsertReveal(children[j[0]], j[1..], value, q[1..], n);
        assert children[j[0] := r][j[0] := Insert(r, j[1..], value).trie] ==
                 children[j[0] := c][j[0] := Reveal(c, q[1..], n).0];
      } else {
        assert children[q[0] := r][j[0] := c] == children[j[0] := c][q[0] := r];
      }
    }
  }

  /** The deletion finds the same when more is loaded. */
  lemma {:induction false} DeleteReveal(s: Sparse, j: Nibbles, q: Nibbles, n: nat)
    requires IsPath(j, |j|) && (s.Nil? || Sound(s, |j|)) && Delete(s, j).Removed?
    ensures var r := Reveal(s, q, n).0;
            && (r.Nil? || Sound(r, |j|)) && Delete(r, j).Removed?
            && Delete(r, j).trie == Reveal(Delete(s, j).trie, q, n).0
    decreases s, 1
  {
    match s
    case Path(key, next) =>
      RevealSound(s, q, n, |j|);
      DeleteSound(next, j[|key|..]);
      UnderReveal(key, Delete(next, j[|key|..]).trie, q, n);
      if key <= q {
        DeleteReveal(next, j[|key|..], q[|key|..], n);
      }
    case Fork(children) => ForkDeleteReveal(children, j, q, n);
    case _ =>
  }

  /** What a deletion makes of a branch, given what becomes of the child. */
  ghost function Remains(children: seq<Sparse>, i: nat, c: Sparse): Sparse
    requires i < |children|
  {
    if c.Nil? then Without(children, i) else Fork(children[i := c])
  }

  lemma RemovedAtFork(children: seq<Sparse>, k: Nibbles, d: Deleted)
    requires |children| == 16 && |k| > 0 && k[0] < 16
    ensures AtFork(children, k, d).Removed? <==>
            !children[k[0]].Nil? && !children[k[0]].Remote? && !Blocked(children, k[0]) && d.Removed?
    ensures AtFork(children, k, d).Removed? ==> AtFork(children, k, d).trie == Remains(children, k[0], d.trie)
  {
  }

  lemma RemainsOnWay(children: seq<Sparse>, i: nat, c: Sparse, q: Nibbles, n: nat)
    requires i < |children| == 16 && i in Used(children) && !Blocked(children, i) && |q| > 0 && q[0] == i
    requires (c.Nil? ==> children[i].Tip?) && (Reveal(c, q[1..], n).0.Nil? <==> c.Nil?)
    ensures var r := Reveal(children[i], q[1..], n).0;
            Remains(children[i := r], i, Reveal(c, q[1..], n).0) == Reveal(Remains(children, i, c), q, n).0
  {
    var r := Reveal(children[i], q[1..], n).0;
    if c.Nil? {
      assert children[i := r] == children;
      if |Used(children)| == 2 {
        TwoUsed(children, i);
        var o := Other(children, i, 0);
        UnderReveal([o], children[o], q, n);
      } else {
        assert children[i := Nil][i := Nil] == children[i := Nil];
      }
    } else {
      assert children[i := r][i := Reveal(c, q[1..], n).0] == children[i := c][i := Reveal(c, q[1..], n).0];
    }
  }

  lemma RemainsOffWay(children: seq<Sparse>, i: nat, c: Sparse, q: Nibbles, n: nat)
    requires i < |children| == 16 && i in Used(children) && !Blocked(children, i) && |q| > 0 && q[0] < 16 && q[0] != i
    requires Reveal(children[q[0]], q[1..], n).0.Nil? <==> children[q[0]].Nil?
    ensures var r := Reveal(children[q[0]], q[1..], n).0;
            Remains(children[q[0] := r], i, c) == Reveal(Remains(children, i, c), q, n).0
  {
    var r := Reveal(children[q[0]], q[1..], n).0;
    Replaced(children, q[0], r, i);
    if c.Nil? && |Used(children)| == 2 {
      TwoUsed(children, i);
      var o := Other(children, i, 0);
      UnderReveal([o], children[o], q, n);
      assert [o] <= q <==> q[0] == o;
      assert q[|[o]|..] == q[1..];
    } else {
      assert children[q[0] := r][i := c] == children[i := c][q[0] := r];
      assert children[q[0] := r][i := Nil] == children[i := Nil][q[0] := r];
    }
  }

  lemma RemainsNoWay(children: seq<Sparse>, i: nat, c: Sparse, q: Nibbles, n: nat)
    requires i < |children| == 16 && i in Used(children) && !Blocked(children, i) && (|q| == 0 || q[0] >= 16)
    ensures Reveal(Remains(children, i, c), q, n).0 == Remains(children, i, c)
  {
    if c.Nil? && |Used(children)| == 2 {
      TwoUsed(children, i);
      var o := Other(children, i, 0);
      UnderReveal([o], children[o], q, n);
    }
  }

  lemma ForkDeleteReveal(children: seq<Sparse>, j: Nibbles, q: Nibbles, n: nat)
    requires IsPath(j, |j|) && Sound(Fork(children), |j|) && Delete(Fork(children), j).Removed?
    ensures var r := Reveal(Fork(children), q, n).0;
            && Sound(r, |j|) && Delete(r, j).Removed?
            && Delete(r, j).trie == Reveal(Delete(Fork(children), j).trie, q, n).0
    decreases Fork(children), 0
  {
    hide Remains, Without, Blocked, AtFork, Sound;
    RevealSound(Fork(children), q, n, |j|);
    ChildSound(children, j);
    var d := Delete(children[j[0]], j[1..]);
    RemovedAtFork(children, j, d);
    DeleteSound(children[j[0]], j[1..]);
    if |q| > 0 && q[0] < 16 {
      var r := Reveal(children[q[0]], q[1..], n).0;
      RevealedNil(children[q[0]], q[1..], n, |j| - 1);
      Replaced(children, q[0], r, j[0]);
      if q[0] == j[0] {
        DeleteReveal(children[j[0]], j[1..], q[1..], n);
        RevealedNil(d.trie, q[1..], n, |j| - 1);
        RemainsOnWay(children, j[0], d.trie, q, n);
        RemovedAtFork(children[q[0] := r], j, Delete(r, j[1..]));
      } else {
        RemainsOffWay(children, j[0], d.trie, q, n);
        RemovedAtFork(children[q[0] := r], j, d);
      }
    } else {
      RemainsNoWay(children, j[0], d.trie, q, n);
    }
  }

  lemma RevealedNil(s: Sparse, path: Nibbles, n: nat, len: nat)
    requires s.Nil? || Sound(s, len)
    ensures (Reveal(s, path, n).0.Nil? <==> s.Nil?) && !Reveal(s, path, n).0.Remote?
  {
    if !s.Nil? {
      RevealedPresent(s, path, n, len);
    }
  }

  lemma StraysMono(c: seq<Sparse>, d: seq<Sparse>, n: nat)
    requires |c| == |d| && forall i :: 0 <= i < |c| && i != n && c[i].Remote? ==> d[i].Remote?
    ensures Strays(c, n) ==> Strays(d, n)
  {
  }

  lemma ForkDebt(c: seq<Sparse>, d: seq<Sparse>, k: Nibbles)
    requires |c| == |d| && |k| > 0 && k[0] < |c| && Debt(c[k[0]], k[1..]) <= Debt(d[k[0]], k[1..])
    requires forall i :: 0 <= i < |c| && i != k[0] && c[i].Remote? ==> d[i].Remote?
    ensures Debt(Fork(c), k) <= Debt(Fork(d), k)
  {
    StraysMono(c, d, k[0]);
  }

  lemma {:induction false} LoadTwiceDebt(t: Full, p: Nibbles, m: nat, q: Nibbles, n: nat, k: Nibbles)
    requires Get(t, k).Some?
    ensures Debt(Reveal(Load(t, p, m).0, q, n).0, k) <= Debt(Load(t, q, n).0, k)
    decreases t, 1
  {
    match t
    case Extension(key, next) =>
      if key <= p {
        LoadAnyDebt(next, p[|key|..], m, k[|key|..]);
        if key <= q {
          LoadTwiceDebt(next, p[|key|..], m, q[|key|..], n, k[|key|..]);
        }
      }
    case Branch(children) => BranchTwiceDebt(children, p, m, q, n, k);
    case _ =>
  }

  lemma BranchTwiceDebt(children: seq<Full>, p: Nibbles, m: nat, q: Nibbles, n: nat, k: Nibbles)
    requires Get(Branch(children), k).Some?
    ensures Debt(Reveal(Load(Branch(children), p, m).0, q, n).0, k) <= Debt(Load(Branch(children), q, n).0, k)
    decreases Branch(children), 0
  {
    var unloaded := seq(|children|, i requires 0 <= i < |children| =>
                        if children[i].Null? then Nil else Remote(children[i]));
    var c := Reveal(Load(Branch(children), p, m).0, q, n).0.children;
    var d := Load(Branch(children), q, n).0.children;
    var onP, onQ := |p| > 0 && p[0] < |children|, |q| > 0 && q[0] < |children|;
    var onlyP := if onP then unloaded[p[0] := Load(children[p[0]], p[1..], m).0] else unloaded;
    assert Load(Branch(children), p, m).0 == Fork(onlyP);
    assert d == if onQ then unloaded[q[0] := Load(children[q[0]], q[1..], n).0] else unloaded;
    assert c == if onQ then onlyP[q[0] := Reveal(onlyP[q[0]], q[1..], n).0] else onlyP;
    if onP {
      LoadWalks(children[p[0]], p[1..], m);
      if p[0] == k[0] {
        LoadAnyDebt(children[k[0]], p[1..], m, k[1..]);
        if onQ && q[0] == k[0] {
          LoadTwiceDebt(children[k[0]], p[1..], m, q[1..], n, k[1..]);
        }
      }
    }
    if onQ {
      RevealWalks(onlyP[q[0]], q[1..], n);
    }
    ForkDebt(c, d, k);
  }

  /** Having loaded other nodes does not make loading worse. */
  lemma {:induction false} RevealTwiceDebt(s: Sparse, p: Nibbles, m: nat, q: Nibbles, n: nat, k: Nibbles)
    requires Present(s, k)
    ensures Debt(Reveal(Reveal(s, p, m).0, q, n).0, k) <= Debt(Reveal(s, q, n).0, k)
    decreases s, 1
  {
    match s
    case Remote(full) => LoadTwiceDebt(full, p, m, q, n, k);
    case Path(key, next) =>
      if key <= p {
        RevealDebt(next, p[|key|..], m, k[|key|..]);
        if key <= q {
          RevealTwiceDebt(next, p[|key|..], m, q[|key|..], n, k[|key|..]);
        }
      }
    case Fork(children) => ForkTwiceDebt(children, p, m, q, n, k);
    case _ =>
  }

  lemma ForkTwiceDebt(children: seq<Sparse>, p: Nibbles, m: nat, q: Nibbles, n: nat, k: Nibbles)
    requires Present(Fork(children), k)
    ensures Debt(Reveal(Reveal(Fork(children), p, m).0, q, n).0, k) <= Debt(Reveal(Fork(children), q, n).0, k)
    decreases Fork(children), 0
  {
    var onP, onQ := |p| > 0 && p[0] < |children|, |q| > 0 && q[0] < |children|;
    var onlyP := if onP then children[p[0] := Reveal(children[p[0]], p[1..], m).0] else children;
    var c := if onQ then onlyP[q[0] := Reveal(onlyP[q[0]], q[1..], n).0] else onlyP;
    var d := if onQ then children[q[0] := Reveal(children[q[0]], q[1..], n).0] else children;
    assert Reveal(Fork(children), p, m).0 == Fork(onlyP);
    assert Reveal(Fork(onlyP), q, n).0 == Fork(c) && Reveal(Fork(children), q, n).0 == Fork(d);
    if onP {
      RevealWalks(children[p[0]], p[1..], m);
      if p[0] == k[0] {
        RevealDebt(children[k[0]], p[1..], m, k[1..]);
        if onQ && q[0] == k[0] {
          RevealTwiceDebt(children[k[0]], p[1..], m, q[1..], n, k[1..]);
        }
      }
    }
    if onQ {
      RevealWalks(onlyP[q[0]], q[1..], n);
    }
    ForkDebt(c, d, k);
  }

  // ---------------------------------------------------------------------------
  // What others do to the way of an insertion

  lemma UnderWalked(key: Nibbles, s: Sparse, k: Nibbles)
    requires key <= k ==> Walked(s, k[|key|..])
    requires key == [] ==> !s.Remote?
    ensures Walked(Under(key, s), k)
  {
    if s.Tip? || s.Path? {
      assert key + s.key <= k ==> key <= k && s.key <= k[|key|..];
      if key + s.key <= k {
        assert k[|key + s.key|..] == k[|key|..][|s.key|..];
      }
    }
    if key == [] {
      assert k[0..] == k;
    }
  }

  /** A split leaves every loaded way loaded. */
  lemma SplitWalked(k1: Nibbles, value: nat, k2: Nibbles, s: Sparse, k: Nibbles)
    requires CommonPrefix(k1, k2) < |k1| && CommonPrefix(k1, k2) < |k2| && IsPath(k1, |k1|) && IsPath(k2, |k2|)
    requires k2 <= k ==> Walked(s, k[|k2|..])
    ensures Walked(SplitAt(k1, Tip([], value), k2, s), k)
  {
    hide Under;
    var p := CommonPrefix(k1, k2);
    TipUnder(k1[p + 1..], value);
    SlicePrefix(k2, p, k);
    var rest := k2[p + 1..];
    var f := Fork(TwoChildren(k1[p], Tip(k1[p + 1..], value), k2[p], Under(rest, s)));
    if k2[..p] <= k && |k| > p && k[p] < 16 {
      if k[p] == k2[p] {
        if rest != [] || k2 <= k {
          RestWalked(rest, s, k[p + 1..]);
        }
      }
      assert Walked(f, k[p..]);
    }
    UnderWalked(k1[..p], f, k);
  }

  lemma RestWalked(rest: Nibbles, s: Sparse, k: Nibbles)
    requires rest <= k ==> Walked(s, k[|rest|..])
    ensures Walked(Under(rest, s), k)
  {
    if rest == [] {
      assert k[0..] == k;
    }
    UnderWalked(rest, s, k);
  }

  /** An insertion leaves every loaded way loaded. */
  lemma {:induction false} InsertWalked(s: Sparse, j: Nibbles, value: nat, k: Nibbles)
    requires IsPath(j, |j|) && (s.Nil? || Sound(s, |j|)) && Insert(s, j, value).Done? && Walked(s, k)
    ensures Walked(Insert(s, j, value).trie, k)
  {
    match s
    case Tip(key, was) =>
      if key != j {
        SplitWalked(j, value, key, Tip([], was), k);
      }
    case Path(key, next) =>
      if key <= j {
        if key <= k {
          InsertWalked(next, j[|key|..], value, k[|key|..]);
        }
      } else {
        SplitWalked(j, value, key, next, k);
      }
    case Fork(children) =>
      if |k| > 0 && k[0] == j[0] {
        InsertWalked(children[j[0]], j[1..], value, k[1..]);
      }
    case _ =>
  }

  /** A deletion leaves every loaded way loaded. */
  lemma {:induction false} DeleteWalked(s: Sparse, j: Nibbles, k: Nibbles)
    requires IsPath(j, |j|) && (s.Nil? || Sound(s, |j|)) && Delete(s, j).Removed? && Walked(s, k)
    ensures Walked(Delete(s, j).trie, k)
  {
    match s
    case Path(key, next) =>
      if key <= k {
        DeleteWalked(next, j[|key|..], k[|key|..]);
      }
      UnderWalked(key, Delete(next, j[|key|..]).trie, k);
    case Fork(children) =>
      var d := Delete(children[j[0]], j[1..]);
      RemovedAtFork(children, j, d);
      if |k| > 0 && k[0] == j[0] {
        DeleteWalked(children[j[0]], j[1..], k[1..]);
      }
      if d.trie.Nil? {
        WithoutWalked(children, j[0], k);
      }
    case _ =>
  }

  lemma WithoutWalked(children: seq<Sparse>, n: nat, k: Nibbles)
    requires n in Used(children) && Walked(Fork(children), k)
    ensures Walked(Without(children, n), k)
  {
    if |Used(children)| == 2 {
      TwoUsed(children, n);
      var o := Other(children, n, 0);
      assert [o] <= k ==> k[0] == o && k[|[o]|..] == k[1..];
      UnderWalked([o], children[o], k);
    }
  }

  // ---------------------------------------------------------------------------
  // A list of operations

  /** An operation that a calculation has to carry out: writing a stored value back, writing a new one, removing. */
  datatype Op = Restore(key: Nibbles, value: nat) | Write(key: Nibbles, bytes: Bytes) | Remove(key: Nibbles)

  ghost predicate Fits(t: Trie, op: Op) {
    IsPath(op.key, KEY_NIBBLES) && (op.Restore? ==> op.value < |t.values|)
  }

  ghost predicate AllFit(t: Trie, ops: seq<Op>) {
    forall op :: op in ops ==> Fits(t, op)
  }

  /** One attempt: the trie after it, and the path that was missed, if any. */
  ghost function Attempt(t: Trie, op: Op): (r: (Trie, seq<Nibbles>))
    requires t.Valid() && Fits(t, op)
    ensures r.0.Valid() && t.values <= r.0.values && (r.1 != [] ==> r.0 == t)
  {
    match op
    case Restore(k, value) =>
      var (t', o) := t.InsertStored(k, value);
      (t', if o.InsertNotFound? then [o.path] else [])
    case Write(k, bytes) =>
      var (t', o) := t.InsertValue(k, bytes);
      (t', if o.InsertNotFound? then [o.path] else [])
    case Remove(k) =>
      var (t', o) := t.DeleteKey(k);
      (t', if o.DeleteNotFound? then [o.path] else [])
  }

  /** All operations one after the other: the trie, the missed paths and the operations still to do. */
  ghost function AttemptAll(t: Trie, ops: seq<Op>): (r: (Trie, seq<Nibbles>, seq<Op>))
    requires t.Valid() && AllFit(t, ops)
    ensures r.0.Valid() && t.values <= r.0.values
  {
    if ops == [] then (t, [], [])
    else
      var n := |ops| - 1;
      assert Fits(t, ops[n]) by { assert ops[n] in ops; }
      var (t1, m1, l1) := AttemptAll(t, ops[..n]);
      var (t2, m2) := Attempt(t1, ops[n]);
      (t2, m1 + m2, l1 + if m2 == [] then [] else [ops[n]])
  }

  /** Loads the missed paths, first to last. */
  ghost function LoadAll(t: Trie, missed: seq<Nibbles>): (r: Trie)
    requires t.Valid()
    ensures r.Valid() && t.values <= r.values && r.AsMap() == t.AsMap()
    decreases |missed|
  {
    if missed == [] then t else LoadAll(t.AddProof(missed[0]), missed[1..])
  }

  /** The key is there and its removal will miss at most `d` nodes. */
  ghost predicate Owes(s: Sparse, k: Nibbles, d: nat) {
    Present(s, k) && Debt(s, k) <= d
  }

  /** Loading `q` leaves at most `d`. */
  ghost predicate Promised(s: Sparse, k: Nibbles, q: Nibbles, d: nat) {
    Present(s, k) && forall n :: Debt(Reveal(s, q, n).0, k) <= d
  }

  /** Going from `s` to `t` costs the key nothing, now or after loading. */
  ghost predicate Eases(s: Sparse, t: Sparse, k: Nibbles) {
    && (Walked(s, k) ==> Walked(t, k))
    && (Present(s, k) ==>
          && Present(t, k) && Debt(t, k) <= Debt(s, k)
          && forall q, n :: Debt(Reveal(t, q, n).0, k) <= Debt(Reveal(s, q, n).0, k))
  }

  lemma EasesTransitive(s: Sparse, t: Sparse, u: Sparse, k: Nibbles)
    requires Eases(s, t, k) && Eases(t, u, k)
    ensures Eases(s, u, k)
  {
    forall q, n | Present(s, k)
      ensures Debt(Reveal(u, q, n).0, k) <= Debt(Reveal(s, q, n).0, k)
    {
      assert Debt(Reveal(t, q, n).0, k) <= Debt(Reveal(s, q, n).0, k);
    }
  }

  lemma InsertEases(s: Sparse, j: Nibbles, value: nat, k: Nibbles)
    requires IsPath(j, |j|) && (s.Nil? || Sound(s, |j|)) && |k| == |j| && Insert(s, j, value).Done?
    ensures Eases(s, Insert(s, j, value).trie, k)
  {
    if Walked(s, k) {
      InsertWalked(s, j, value, k);
    }
    if Present(s, k) {
      InsertDebt(s, j, value, k);
      forall q, n
        ensures Debt(Reveal(Insert(s, j, value).trie, q, n).0, k) <= Debt(Reveal(s, q, n).0, k)
      {
        InsertReveal(s, j, value, q, n);
        RevealDebt(s, q, n, k);
        InsertDebt(Reveal(s, q, n).0, j, value, k);
      }
    }
  }

  lemma DeleteEases(s: Sparse, j: Nibbles, k: Nibbles)
    requires IsPath(j, |j|) && (s.Nil? || Sound(s, |j|)) && |k| == |j| && j != k && Delete(s, j).Removed?
    ensures Eases(s, Delete(s, j).trie, k)
  {
    if Walked(s, k) {
      DeleteWalked(s, j, k);
    }
    if Present(s, k) {
      DeleteDebt(s, j, k);
      forall q, n
        ensures Debt(Reveal(Delete(s, j).trie, q, n).0, k) <= Debt(Reveal(s, q, n).0, k)
      {
        DeleteReveal(s, j, q, n);
        RevealDebt(s, q, n, k);
        DeleteDebt(Reveal(s, q, n).0, j, k);
      }
    }
  }

  lemma LoadEases(t: Trie, p: Nibbles, k: Nibbles)
    requires t.Valid()
    ensures Eases(t.root, t.AddProof(p).root, k)
  {
    if Present(t.root, k) {
      RevealDebt(t.root, p, |t.values|, k);
      forall q, n
        ensures Debt(Reveal(t.AddProof(p).root, q, n).0, k) <= Debt(Reveal(t.root, q, n).0, k)
      {
        RevealTwiceDebt(t.root, p, |t.values|, q, n, k);
      }
    }
  }

  /** An attempt costs no key anything but the one it removes. */
  lemma AttemptEases(t: Trie, op: Op, k: Nibbles)
    requires t.Valid() && Fits(t, op) && |k| == KEY_NIBBLES && (op.Remove? ==> op.key != k)
    ensures Eases(t.root, Attempt(t, op).0.root, k)
  {
    if !t.IsUninit() {
      match op
      case Restore(j, value) =>
        if Insert(t.root, j, value).Done? {
          InsertEases(t.root, j, value, k);
        }
      case Write(j, bytes) =>
        if Insert(t.root, j, |t.values|).Done? {
          InsertEases(t.root, j, |t.values|, k);
        }
      case Remove(j) =>
        if Delete(t.root, j).Removed? {
          DeleteEases(t.root, j, k);
        }
    }
  }

  /** The operation will miss nodes in at most `d` rounds. */
  ghost predicate Within(s: Sparse, op: Op, d: nat) {
    if op.Remove? then Owes(s, op.key, d) else d > 0 || Walked(s, op.key)
  }

  /** Loading the missed paths leaves at most `d` rounds. */
  ghost predicate Due(s: Sparse, missed: seq<Nibbles>, op: Op, d: nat) {
    if op.Remove? then exists q :: q in missed && Promised(s, op.key, q, d) else op.key in missed
  }

  lemma EasedWithin(s: Sparse, t: Sparse, op: Op, d: nat)
    requires Within(s, op, d) && Eases(s, t, op.key)
    ensures Within(t, op, d)
  {
  }

  lemma EasedDue(s: Sparse, t: Sparse, missed: seq<Nibbles>, more: seq<Nibbles>, op: Op, d: nat)
    requires Due(s, missed, op, d) && Eases(s, t, op.key)
    ensures Due(t, missed + more, op, d)
  {
    if op.Remove? {
      var q :| q in missed && Promised(s, op.key, q, d);
      forall n
        ensures Debt(Reveal(t, q, n).0, op.key) <= d
      {
        assert Debt(Reveal(s, q, n).0, op.key) <= d;
      }
      assert q in missed + more && Promised(t, op.key, q, d);
    }
  }

  lemma MissedInsert(s: Sparse, k: Nibbles, value: nat)
    requires IsPath(k, |k|) && (s.Nil? || Sound(s, |k|)) && Insert(s, k, value).Missing?
    ensures Insert(s, k, value).path == k
  {
  }

  /** An attempt goes through, or loading what it missed brings it closer. */
  lemma AttemptDue(t: Trie, op: Op, d: nat)
    requires t.Valid() && Fits(t, op) && Within(t.root, op, d)
    ensures var (t', m) := Attempt(t, op); m == [] || (d > 0 && Due(t'.root, m, op, d - 1))
  {
    var (t', m) := Attempt(t, op);
    if m != [] {
      match op
      case Restore(k, value) => WriteDue(t, k, value, op, d);
      case Write(k, bytes) => WriteDue(t, k, |t.values|, op, d);
      case Remove(k) => RemoveDue(t, k, d);
    }
  }

  lemma WriteDue(t: Trie, k: Nibbles, value: nat, op: Op, d: nat)
    requires t.Valid() && IsPath(k, KEY_NIBBLES) && !op.Remove? && op.key == k && Within(t.root, op, d)
    requires t.IsUninit() || Insert(t.root, k, value).Missing?
    ensures d > 0
    ensures !t.IsUninit() ==> Insert(t.root, k, value).path == k
  {
    if !t.IsUninit() {
      InsertMisses(t.root, k, value);
      MissedInsert(t.root, k, value);
    }
  }

  lemma RemoveDue(t: Trie, k: Nibbles, d: nat)
    requires t.Valid() && IsPath(k, KEY_NIBBLES) && Owes(t.root, k, d) && t.DeleteKey(k).1.DeleteNotFound?
    ensures d > 0 && Promised(t.root, k, t.DeleteKey(k).1.path, d - 1)
  {
    var q := t.DeleteKey(k).1.path;
    forall n
      ensures Debt(Reveal(t.root, q, n).0, k) < Debt(t.root, k)
    {
      if t.IsUninit() {
        LoadDebt(t.root.full, k, n);
      } else {
        AttemptHelps(t.root, k, n);
      }
    }
    assert Debt(Reveal(t.root, q, 0).0, k) < Debt(t.root, k);
  }

  /** No two operations have the same key. */
  ghost predicate KeysApart(ops: seq<Op>) {
    forall i, j :: 0 <= i < j < |ops| ==> ops[i].key != ops[j].key
  }

  ghost predicate AllWithin(s: Sparse, ops: seq<Op>, d: nat) {
    forall op :: op in ops ==> Within(s, op, d)
  }

  ghost predicate AllDue(s: Sparse, missed: seq<Nibbles>, ops: seq<Op>, d: nat) {
    forall op :: op in ops ==> Due(s, missed, op, d)
  }

  /** A list of attempts costs no key anything but those it removes. */
  lemma {:induction false} AllEase(t: Trie, ops: seq<Op>, k: Nibbles)
    requires t.Valid() && AllFit(t, ops) && |k| == KEY_NIBBLES
    requires forall op :: op in ops && op.Remove? ==> op.key != k
    ensures Eases(t.root, AttemptAll(t, ops).0.root, k)
  {
    if ops != [] {
      var n := |ops| - 1;
      assert ops[n] in ops;
      AllEase(t, ops[..n], k);
      var t1 := AttemptAll(t, ops[..n]).0;
      AttemptEases(t1, ops[n], k);
      EasesTransitive(t.root, t1.root, Attempt(t1, ops[n]).0.root, k);
    }
  }

  /** After a list of attempts, what is left to do is due with what was missed. */
  lemma {:induction false} AttemptsDue(t: Trie, ops: seq<Op>, d: nat)
    requires t.Valid() && AllFit(t, ops) && KeysApart(ops) && AllWithin(t.root, ops, d)
    ensures var (t', m, left) := AttemptAll(t, ops);
            && (forall op :: op in left ==> op in ops) && (left == [] <==> m == [])
            && (left != [] ==> d > 0 && AllDue(t'.root, m, left, d - 1))
  {
    if ops != [] {
      var n := |ops| - 1;
      AttemptsDue(t, ops[..n], d);
      var (t1, m1, l1) := AttemptAll(t, ops[..n]);
      assert Fits(t, ops[n]) && Within(t.root, ops[n], d) by { assert ops[n] in ops; }
      AllEase(t, ops[..n], ops[n].key);
      EasedWithin(t.root, t1.root, ops[n], d);
      OneMoreDue(t1, m1, l1, ops[n], d);
    }
  }

  lemma OneMoreDue(t: Trie, m: seq<Nibbles>, left: seq<Op>, last: Op, d: nat)
    requires t.Valid() && Fits(t, last) && Within(t.root, last, d)
    requires forall op :: op in left ==> |op.key| == KEY_NIBBLES && op.key != last.key
    requires left != [] ==> d > 0 && AllDue(t.root, m, left, d - 1)
    ensures var (t', m') := Attempt(t, last);
            var left' := left + if m' == [] then [] else [last];
            left' != [] ==> d > 0 && AllDue(t'.root, m + m', left', d - 1)
  {
    hide Within, Due, Eases, Attempt;
    var (t', m') := Attempt(t, last);
    AttemptDue(t, last, d);
    forall op | op in left
      ensures Due(t'.root, m + m', op, d - 1)
    {
      AttemptEases(t, last, op.key);
      EasedDue(t.root, t'.root, m, m', op, d - 1);
    }
    if m' != [] {
      DueMore(t'.root, m, m', last, d - 1);
    }
  }

  lemma DueMore(s: Sparse, missed: seq<Nibbles>, more: seq<Nibbles>, op: Op, d: nat)
    requires Due(s, more, op, d)
    ensures Due(s, missed + more, op, d)
  {
    if op.Remove? {
      var q :| q in more && Promised(s, op.key, q, d);
      assert q in missed + more;
    }
  }

  lemma {:induction false} LoadAllEases(t: Trie, missed: seq<Nibbles>, k: Nibbles)
    requires t.Valid()
    ensures Eases(t.root, LoadAll(t, missed).root, k)
    decreases |missed|
  {
    if missed != [] {
      var t1 := t.AddProof(missed[0]);
      LoadEases(t, missed[0], k);
      LoadAllEases(t1, missed[1..], k);
      EasesTransitive(t.root, t1.root, LoadAll(t1, missed[1..]).root, k);
    }
  }

  /** Loading pays what is due. */
  lemma {:induction false} LoadPays(t: Trie, missed: seq<Nibbles>, op: Op, d: nat)
    requires t.Valid() && Due(t.root, missed, op, d)
    ensures Within(LoadAll(t, missed).root, op, d)
    decreases |missed|
  {
    hide Eases;
    var t1 := t.AddProof(missed[0]);
    if Within(t1.root, op, d) {
      LoadAllEases(t1, missed[1..], op.key);
      EasedWithin(t1.root, LoadAll(t1, missed[1..]).root, op, d);
    } else {
      LoadEases(t, missed[0], op.key);
      StillDue(t, missed, op, d);
      LoadPays(t1, missed[1..], op, d);
    }
  }

  lemma StillDue(t: Trie, missed: seq<Nibbles>, op: Op, d: nat)
    requires t.Valid() && Due(t.root, missed, op, d) && Eases(t.root, t.AddProof(missed[0]).root, op.key)
    ensures Within(t.AddProof(missed[0]).root, op, d) || Due(t.AddProof(missed[0]).root, missed[1..], op, d)
  {
    var t1 := t.AddProof(missed[0]);
    if op.Remove? {
      var q :| q in missed && Promised(t.root, op.key, q, d);
      if q == missed[0] {
        assert Debt(Reveal(t.root, q, |t.values|).0, op.key) <= d;
      } else {
        assert q in missed[1..];
        forall n
          ensures Debt(Reveal(t1.root, q, n).0, op.key) <= d
        {
          assert Debt(Reveal(t.root, q, n).0, op.key) <= d;
        }
        assert Promised(t1.root, op.key, q, d);
      }
    }
  }

  lemma AllPaid(t: Trie, missed: seq<Nibbles>, ops: seq<Op>, d: nat)
    requires t.Valid() && AllDue(t.root, missed, ops, d)
    ensures AllWithin(LoadAll(t, missed).root, ops, d)
  {
    forall op | op in ops
      ensures Within(LoadAll(t, missed).root, op, d)
    {
      LoadPays(t, missed, op, d);
    }
  }

  /** Attempts leave every loaded way loaded. */
  lemma {:induction false} AllKeepWalked(t: Trie, ops: seq<Op>, k: Nibbles)
    requires t.Valid() && AllFit(t, ops) && Walked(t.root, k)
    ensures Walked(AttemptAll(t, ops).0.root, k)
  {
    if ops != [] {
      var n := |ops| - 1;
      assert ops[n] in ops;
      AllKeepWalked(t, ops[..n], k);
      AttemptKeepsWalked(AttemptAll(t, ops[..n]).0, ops[n], k);
    }
  }

  lemma AttemptKeepsWalked(t: Trie, op: Op, k: Nibbles)
    requires t.Valid() && Fits(t, op) && Walked(t.root, k)
    ensures Walked(Attempt(t, op).0.root, k)
  {
    match op
    case Restore(j, value) =>
      if Insert(t.root, j, value).Done? {
        InsertWalked(t.root, j, value, k);
      }
    case Write(j, bytes) =>
      if Insert(t.root, j, |t.values|).Done? {
        InsertWalked(t.root, j, |t.values|, k);
      }
    case Remove(j) =>
      if Delete(t.root, j).Removed? {
        DeleteWalked(t.root, j, k);
      }
  }

  /** Attempts at other keys do not raise what an operation needs. */
  lemma AllEaseWithin(t: Trie, ops: seq<Op>, op: Op, d: nat)
    requires t.Valid() && AllFit(t, ops) && |op.key| == KEY_NIBBLES && Within(t.root, op, d)
    requires op.Remove? ==> forall o :: o in ops && o.Remove? ==> o.key != op.key
    ensures Within(AttemptAll(t, ops).0.root, op, d)
  {
    if op.Remove? {
      AllEase(t, ops, op.key);
    } else if d == 0 {
      AllKeepWalked(t, ops, op.key);
    }
  }

  /** Loading raises nothing. */
  lemma LoadAllWithin(t: Trie, missed: seq<Nibbles>, ops: seq<Op>, d: nat)
    requires t.Valid() && AllWithin(t.root, ops, d)
    ensures AllWithin(LoadAll(t, missed).root, ops, d)
  {
    forall op | op in ops
      ensures Within(LoadAll(t, missed).root, op, d)
    {
      LoadAllEases(t, missed, op.key);
      EasedWithin(t.root, LoadAll(t, missed).root, op, d);
    }
  }

  lemma LoadedSomething(t: Trie, missed: seq<Nibbles>)
    requires t.Valid() && (missed != [] || !t.IsUninit())
    ensures !LoadAll(t, missed).IsUninit()
  {
    if missed != [] {
      LoadAllEases(t.AddProof(missed[0]), missed[1..], missed[0]);
    }
  }

  lemma AllDueMore(s: Sparse, missed: seq<Nibbles>, more: seq<Nibbles>, ops: seq<Op>, d: nat)
    requires AllDue(s, missed, ops, d)
    ensures AllDue(s, missed + more, ops, d)
  {
    forall op | op in ops
      ensures Due(s, missed + more, op, d)
    {
      EasedDue(s, s, missed, more, op, d);
    }
  }

  // ---------------------------------------------------------------------------
  // Rounds of a whole list

  lemma {:induction false} LeftApart(t: Trie, ops: seq<Op>)
    requires t.Valid() && AllFit(t, ops) && KeysApart(ops)
    ensures var left := AttemptAll(t, ops).2;
            KeysApart(left) && forall op :: op in left ==> op in ops
  {
    if ops != [] {
      var n := |ops| - 1;
      LeftApart(t, ops[..n]);
      var left := AttemptAll(t, ops[..n]).2;
      forall i | 0 <= i < |left|
        ensures left[i].key != ops[n].key
      {
        assert left[i] in ops[..n];
      }
    }
  }

  /** What is left to do after a number of rounds of attempts and loading. */
  ghost function Left(t: Trie, ops: seq<Op>, rounds: nat): seq<Op>
    requires t.Valid() && AllFit(t, ops) && KeysApart(ops)
    decreases rounds
  {
    if rounds == 0 then ops
    else
      LeftApart(t, ops);
      var (t', m, left) := AttemptAll(t, ops);
      Left(LoadAll(t', m), left, rounds - 1)
  }

  /** A list of operations is through when the rounds exceed the bound of each. */
  lemma {:induction false} RoundsSuffice(t: Trie, ops: seq<Op>, d: nat)
    requires t.Valid() && AllFit(t, ops) && KeysApart(ops) && AllWithin(t.root, ops, d)
    ensures Left(t, ops, d + 1) == []
    decreases d
  {
    LeftApart(t, ops);
    AttemptsDue(t, ops, d);
    var (t', m, left) := AttemptAll(t, ops);
    if left != [] {
      AllPaid(t', m, left, d - 1);
      RoundsSuffice(LoadAll(t', m), left, d - 1);
    } else {
      NothingLeft(LoadAll(t', m), d);
    }
  }

  lemma {:induction false} NothingLeft(t: Trie, rounds: nat)
    requires t.Valid()
    ensures Left(t, [], rounds) == []
    decreases rounds
  {
    if rounds > 0 {
      NothingLeft(LoadAll(t, []), rounds - 1);
    }
  }

  /** Over a database trie of which nothing is loaded, any list of writes and removals of stored keys is through
      within the attempts of a calculation, if no removed key has more than eight branches on its way. */
  lemma TenRoundsSufficeForAll(database: Full, ops: seq<Op>)
    requires Canonical(database, KEY_NIBBLES) && KeysApart(ops)
    requires forall op :: op in ops ==> !op.Restore? && IsPath(op.key, KEY_NIBBLES)
    requires forall op :: op in ops && op.Remove? ==> Get(database, op.key).Some? && Branches(database, op.key) <= 8
    ensures AllFit(Trie(Remote(database), []), ops) && Left(Trie(Remote(database), []), ops, ATTEMPTS) == []
  {
    RoundsSuffice(Trie(Remote(database), []), ops, ATTEMPTS - 1);
  }
}
