/**
  The Merkle Patricia trie behind the state root, in two forms: `Full`, the trie of
  the database, and `Sparse`, the part of it held in memory, where a `Remote` pointer
  stands for a subtree known only by its hash.

  The main results: `InsertIsUpdate` and `DeleteIsRemoval` (the sparse operations are map
  update and removal on the full contents, or change nothing), `RevealKeepsTrie` (loading
  proofs changes nothing), and `SameContentsSameTrie` (the shape is canonical, so a root
  hash is a function of the contents).
 */
module SparseTrie {
  import opened Wrappers

  type Nibbles = seq<nat>
  type Bytes = seq<nat>

  predicate IsPath(k: Nibbles, len: nat) {
    |k| == len && forall i :: 0 <= i < |k| ==> k[i] < 16
  }

  // ---------------------------------------------------------------------------
  // The full trie

  datatype Full =
    | Null
    | Leaf(key: Nibbles, value: Bytes)
    | Extension(key: Nibbles, next: Full)
    | Branch(children: seq<Full>)

  function Get(t: Full, k: Nibbles): Option<Bytes> {
    match t
    case Null => None
    case Leaf(key, value) => if k == key then Some(value) else None
    case Extension(key, next) => if key <= k then Get(next, k[|key|..]) else None
    case Branch(children) =>
      if |k| > 0 && k[0] < |children| then Get(children[k[0]], k[1..]) else None
  }

  ghost function Occupied(children: seq<Full>): set<nat> {
    set i: nat | i < |children| && !children[i].Null?
  }

  /** A non-empty trie in canonical shape over paths of `len` nibbles. */
  ghost predicate Solid(t: Full, len: nat) {
    match t
    case Null => false
    case Leaf(key, _) => IsPath(key, len)
    case Extension(key, next) =>
      0 < |key| < len && IsPath(key, |key|) && next.Branch? && Solid(next, len - |key|)
    case Branch(children) =>
      && len > 0 && |children| == 16 && |Occupied(children)| >= 2
      && forall i :: 0 <= i < |children| && !children[i].Null? ==> Solid(children[i], len - 1)
  }

  ghost predicate Canonical(t: Full, len: nat) {
    t.Null? || Solid(t, len)
  }

  lemma PickTwo(s: set<nat>) returns (i: nat, j: nat)
    requires |s| >= 2
    ensures i in s && j in s && i != j
  {
    i :| i in s;
    assert |s - {i}| >= 1;
    j :| j in s - {i};
  }

  lemma {:induction false} SolidHasKey(t: Full, len: nat) returns (k: Nibbles)
    requires Solid(t, len)
    ensures IsPath(k, len) && Get(t, k).Some?
  {
    match t
    case Leaf(key, _) => k := key;
    case Extension(key, next) =>
      var rest := SolidHasKey(next, len - |key|);
      k := key + rest;
      assert k[|key|..] == rest;
    case Branch(children) =>
      var i, _ := PickTwo(Occupied(children));
      k := BranchKey(children, len, i);
  }

  lemma {:induction false} BranchKey(children: seq<Full>, len: nat, i: nat) returns (k: Nibbles)
    requires Solid(Branch(children), len) && i in Occupied(children)
    ensures IsPath(k, len) && k[0] == i && Get(Branch(children), k).Some?
    decreases children, 0
  {
    assert children[i] in children;
    var rest := SolidHasKey(children[i], len - 1);
    k := [i] + rest;
    assert k[1..] == rest;
  }

  /** Two keys of an extension's branch part right after the extension's own nibbles. */
  lemma ExtensionKeys(key: Nibbles, next: Full, len: nat) returns (k1: Nibbles, k2: Nibbles)
    requires Solid(Extension(key, next), len)
    ensures IsPath(k1, len) && IsPath(k2, len) && key <= k1 && key <= k2
    ensures k1[|key|] != k2[|key|]
    ensures Get(Extension(key, next), k1).Some? && Get(Extension(key, next), k2).Some?
  {
    var i, j := PickTwo(Occupied(next.children));
    var r1 := BranchKey(next.children, len - |key|, i);
    var r2 := BranchKey(next.children, len - |key|, j);
    k1, k2 := key + r1, key + r2;
    assert k1[|key|..] == r1 && k2[|key|..] == r2;
  }

  /** Two different keys of anything that is not a leaf. */
  lemma TwoKeys(t: Full, len: nat) returns (k1: Nibbles, k2: Nibbles)
    requires Solid(t, len) && !t.Leaf?
    ensures IsPath(k1, len) && IsPath(k2, len) && k1 != k2
    ensures Get(t, k1).Some? && Get(t, k2).Some?
    ensures t.Branch? ==> k1[0] != k2[0]
  {
    match t
    case Extension(key, next) => k1, k2 := ExtensionKeys(key, next, len);
    case Branch(children) =>
      var i, j := PickTwo(Occupied(children));
      k1 := BranchKey(children, len, i);
      k2 := BranchKey(children, len, j);
  }

  /** Different canonical tries differ at some key. */
  lemma {:induction false} Distinguish(t: Full, u: Full, len: nat) returns (k: Nibbles)
    requires Solid(t, len) && Solid(u, len) && t != u
    ensures IsPath(k, len) && Get(t, k) != Get(u, k)
    decreases t, 1, u
  {
    match (t, u)
    case (Leaf(key, _), Leaf(_, _)) => k := key;
    case (Leaf(key, _), _) =>
      var k1, k2 := TwoKeys(u, len);
      k := if k1 == key then k2 else k1;
    case (_, Leaf(key, _)) =>
      var k1, k2 := TwoKeys(t, len);
      k := if k1 == key then k2 else k1;
    case (Branch(cs), Branch(ds)) => k := DistinguishBranches(cs, ds, len);
    case (Branch(_), Extension(key, _)) =>
      var k1, k2 := TwoKeys(t, len);
      k := if k1[0] == key[0] then k2 else k1;
    case (Extension(key, _), Branch(_)) =>
      var k1, k2 := TwoKeys(u, len);
      k := if k1[0] == key[0] then k2 else k1;
    case (Extension(k1, c), Extension(k2, d)) =>
      if k1 == k2 {
        var rest := Distinguish(c, d, len - |k1|);
        k := k1 + rest;
        assert k[|k1|..] == rest;
      } else if |k1| <= |k2| {
        k := DistinguishExtensions(k1, c, k2, d, len);
      } else {
        k := DistinguishExtensions(k2, d, k1, c, len);
      }
  }

  lemma DistinguishExtensions(k1: Nibbles, c: Full, k2: Nibbles, d: Full, len: nat) returns (k: Nibbles)
    requires Solid(Extension(k1, c), len) && Solid(Extension(k2, d), len)
    requires |k1| <= |k2| && k1 != k2
    ensures IsPath(k, len) && Get(Extension(k1, c), k) != Get(Extension(k2, d), k)
  {
    var a, b := ExtensionKeys(k1, c, len);
    if k2 <= a {
      assert a[|k1|] == k2[|k1|];
      k := b;
    } else {
      k := a;
    }
  }

  lemma {:induction false} DistinguishBranches(cs: seq<Full>, ds: seq<Full>, len: nat) returns (k: Nibbles)
    requires Solid(Branch(cs), len) && Solid(Branch(ds), len) && cs != ds
    ensures IsPath(k, len) && Get(Branch(cs), k) != Get(Branch(ds), k)
    decreases cs, 0
  {
    var i :| 0 <= i < 16 && cs[i] != ds[i];
    assert cs[i] in cs;
    var rest: Nibbles;
    if cs[i].Null? {
      rest := SolidHasKey(ds[i], len - 1);
    } else if ds[i].Null? {
      rest := SolidHasKey(cs[i], len - 1);
    } else {
      rest := Distinguish(cs[i], ds[i], len - 1);
    }
    k := [i] + rest;
    assert k[1..] == rest;
  }

  ghost function Contents(t: Full, len: nat): imap<Nibbles, Bytes> {
    imap k: Nibbles | IsPath(k, len) && Get(t, k).Some? :: Get(t, k).value
  }

  lemma DifferentTriesDifferentContents(t: Full, u: Full, len: nat)
    requires Canonical(t, len) && Canonical(u, len) && t != u
    ensures Contents(t, len) != Contents(u, len)
  {
    var k: Nibbles;
    if t.Null? {
      k := SolidHasKey(u, len);
    } else if u.Null? {
      k := SolidHasKey(t, len);
    } else {
      k := Distinguish(t, u, len);
    }
    var c, d := Contents(t, len), Contents(u, len);
    assert (k in c <==> Get(t, k).Some?) && (k in d <==> Get(u, k).Some?);
    assert k in c && k in d ==> c[k] != d[k];
  }

  /** The shape of a trie is determined by what it holds. */
  lemma SameContentsSameTrie(t: Full, u: Full, len: nat)
    requires Canonical(t, len) && Canonical(u, len)
    ensures Contents(t, len) == Contents(u, len) <==> t == u
  {
    if t != u {
      DifferentTriesDifferentContents(t, u, len);
    }
  }

  // ---------------------------------------------------------------------------
  // The sparse trie

  /** `Nil` is an absent child, and at the root the loaded empty trie.
      Leaves hold indices into the append-only list of stored values. */
  datatype Sparse =
    | Nil
    | Tip(key: Nibbles, value: nat)
    | Path(key: Nibbles, next: Sparse)
    | Fork(children: seq<Sparse>)
    | Remote(full: Full)

  ghost function Resolve(s: Sparse, values: seq<Bytes>): Full
    requires Stored(s, |values|)
  {
    match s
    case Nil => Null
    case Tip(key, value) => Leaf(key, values[value])
    case Path(key, next) => Extension(key, Resolve(next, values))
    case Fork(children) =>
      Branch(seq(|children|, i requires 0 <= i < |children| => Resolve(children[i], values)))
    case Remote(full) => full
  }

  /** Every leaf points at a stored value. */
  ghost predicate Stored(s: Sparse, n: nat) {
    match s
    case Tip(_, value) => value < n
    case Path(_, next) => Stored(next, n)
    case Fork(children) => forall i :: 0 <= i < |children| ==> Stored(children[i], n)
    case _ => true
  }

  lemma {:induction false} ResolveExtend(s: Sparse, values: seq<Bytes>, more: seq<Bytes>)
    requires Stored(s, |values|) && values <= more
    ensures Stored(s, |more|) && Resolve(s, more) == Resolve(s, values)
  {
    match s
    case Path(_, next) => ResolveExtend(next, values, more);
    case Fork(children) =>
      forall i | 0 <= i < |children|
        ensures Stored(children[i], |more|) && Resolve(children[i], more) == Resolve(children[i], values)
      {
        ResolveExtend(children[i], values, more);
      }
    case _ =>
  }

  function Used(children: seq<Sparse>): set<nat> {
    set i: nat | i < |children| && !children[i].Nil?
  }

  /** The sparse form of `Solid`: loaded nodes are in canonical shape, unloaded ones stand for canonical tries. */
  ghost predicate Sound(s: Sparse, len: nat) {
    match s
    case Nil => false
    case Tip(key, _) => IsPath(key, len)
    case Path(key, next) =>
      && 0 < |key| < len && IsPath(key, |key|)
      && (next.Fork? || (next.Remote? && next.full.Branch?)) && Sound(next, len - |key|)
    case Fork(children) =>
      && len > 0 && |children| == 16 && |Used(children)| >= 2
      && forall i :: 0 <= i < |children| && !children[i].Nil? ==> Sound(children[i], len - 1)
    case Remote(full) => Solid(full, len)
  }

  lemma {:induction false} SoundIsSolid(s: Sparse, len: nat, values: seq<Bytes>)
    requires Sound(s, len) && Stored(s, |values|)
    ensures Solid(Resolve(s, values), len)
  {
    match s
    case Path(key, next) => SoundIsSolid(next, len - |key|, values);
    case Fork(children) =>
      var resolved := Resolve(s, values).children;
      forall i | 0 <= i < |children|
        ensures resolved[i].Null? <==> children[i].Nil?
        ensures !children[i].Nil? ==> Solid(resolved[i], len - 1)
      {
        assert resolved[i] == Resolve(children[i], values);
        if !children[i].Nil? {
          SoundIsSolid(children[i], len - 1, values);
        }
      }
      assert Occupied(resolved) == Used(children);
    case _ =>
  }

  // ---------------------------------------------------------------------------
  // Insertion

  datatype Inserted = Done(trie: Sparse, replaced: Option<nat>) | Missing(path: Nibbles)

  function CommonPrefix(a: Nibbles, b: Nibbles): (n: nat)
    ensures n <= |a| && n <= |b| && a[..n] == b[..n]
    ensures n < |a| && n < |b| ==> a[n] != b[n]
  {
    if |a| > 0 && |b| > 0 && a[0] == b[0] then
      var n := CommonPrefix(a[1..], b[1..]);
      assert a[..n + 1] == [a[0]] + a[1..][..n] && b[..n + 1] == [b[0]] + b[1..][..n];
      n + 1
    else 0
  }

  /** The children of a branch with just two of them. */
  function TwoChildren(n1: nat, s1: Sparse, n2: nat, s2: Sparse): seq<Sparse> {
    seq(16, i => if i == n1 then s1 else if i == n2 then s2 else Nil)
  }

  /** Puts nibbles in front of a node, merging them into its own key. */
  function Under(key: Nibbles, s: Sparse): Sparse {
    if key == [] then s else
    match s
    case Tip(rest, value) => Tip(key + rest, value)
    case Path(rest, next) => Path(key + rest, next)
    case _ => Path(key, s)
  }

  /** The node holding `s1` under `k1` and `s2` under `k2`, two keys that part somewhere. */
  function SplitAt(k1: Nibbles, s1: Sparse, k2: Nibbles, s2: Sparse): Sparse
    requires CommonPrefix(k1, k2) < |k1| && CommonPrefix(k1, k2) < |k2|
  {
    var p := CommonPrefix(k1, k2);
    Under(k1[..p], Fork(TwoChildren(k1[p], Under(k1[p + 1..], s1), k2[p], Under(k2[p + 1..], s2))))
  }

  function Insert(s: Sparse, k: Nibbles, value: nat): Inserted
    requires IsPath(k, |k|) && (s.Nil? || Sound(s, |k|))
  {
    match s
    case Remote(_) => Missing(k)
    case Nil => Done(Tip(k, value), None)
    case Tip(key, was) =>
      if key == k then Done(Tip(key, value), Some(was))
      else Done(SplitAt(k, Tip([], value), key, Tip([], was)), None)
    case Path(key, next) =>
      if key <= k then
        match Insert(next, k[|key|..], value)
        case Missing(_) => Missing(k)
        case Done(next', was) => Done(Path(key, next'), was)
      else Done(SplitAt(k, Tip([], value), key, next), None)
    case Fork(children) =>
      match Insert(children[k[0]], k[1..], value)
      case Missing(_) => Missing(k)
      case Done(child, was) => Done(Fork(children[k[0] := child]), was)
  }

  /** The value at a path of the trie that `s` stands for. */
  ghost function Lookup(s: Sparse, k: Nibbles, values: seq<Bytes>): Option<Bytes>
    requires Stored(s, |values|)
  {
    match s
    case Nil => None
    case Tip(key, value) => if k == key then Some(values[value]) else None
    case Path(key, next) => if key <= k then Lookup(next, k[|key|..], values) else None
    case Fork(children) =>
      if |k| > 0 && k[0] < |children| then Lookup(children[k[0]], k[1..], values) else None
    case Remote(full) => Get(full, k)
  }

  lemma {:induction false} LookupIsGet(s: Sparse, k: Nibbles, values: seq<Bytes>)
    requires Stored(s, |values|)
    ensures Lookup(s, k, values) == Get(Resolve(s, values), k)
  {
    match s
    case Path(key, next) =>
      if key <= k {
        LookupIsGet(next, k[|key|..], values);
      }
    case Fork(children) =>
      if |k| > 0 && k[0] < |children| {
        LookupIsGet(children[k[0]], k[1..], values);
      }
    case _ =>
  }

  lemma UnderSound(key: Nibbles, s: Sparse, len: nat)
    requires |key| <= len && IsPath(key, |key|) && Sound(s, len - |key|)
    requires s.Remote? ==> s.full.Branch?
    ensures Sound(Under(key, s), len)
  {
  }

  lemma UnderLookup(key: Nibbles, s: Sparse, x: Nibbles, values: seq<Bytes>)
    requires Stored(s, |values|)
    ensures Stored(Under(key, s), |values|)
    ensures Lookup(Under(key, s), x, values) == if key <= x then Lookup(s, x[|key|..], values) else None
  {
    if s.Tip? || s.Path? {
      assert key + s.key <= x <==> key <= x && s.key <= x[|key|..];
      assert key + s.key == x <==> key <= x && s.key == x[|key|..];
      if key + s.key <= x {
        assert x[|key + s.key|..] == x[|key|..][|s.key|..];
      }
    }
    if key == [] {
      assert x[0..] == x;
    }
  }

  lemma SplitSound(k1: Nibbles, s1: Sparse, k2: Nibbles, s2: Sparse, len: nat)
    requires CommonPrefix(k1, k2) < |k1| <= len && CommonPrefix(k1, k2) < |k2| <= len
    requires IsPath(k1, |k1|) && IsPath(k2, |k2|) && Sound(s1, len - |k1|) && Sound(s2, len - |k2|)
    requires (s1.Remote? ==> s1.full.Branch?) && (s2.Remote? ==> s2.full.Branch?)
    ensures Sound(SplitAt(k1, s1, k2, s2), len)
  {
    var p := CommonPrefix(k1, k2);
    UnderSound(k1[p + 1..], s1, len - p - 1);
    UnderSound(k2[p + 1..], s2, len - p - 1);
    var children := TwoChildren(k1[p], Under(k1[p + 1..], s1), k2[p], Under(k2[p + 1..], s2));
    assert Used(children) == {k1[p], k2[p]};
    UnderSound(k1[..p], Fork(children), len);
  }

  lemma PrefixParts(k: Nibbles, x: Nibbles, p: nat)
    requires p < |k| && p < |x|
    ensures k <= x <==> k[..p] <= x && x[p..][0] == k[p] && k[p + 1..] <= x[p..][1..]
    ensures x[p..][1..] == x[p + 1..]
    ensures k <= x ==> x[p + 1..][|k| - p - 1..] == x[|k|..]
  {
  }

  lemma TwoChildrenLookup(n1: nat, c1: Sparse, n2: nat, c2: Sparse, x: Nibbles, values: seq<Bytes>)
    requires Stored(c1, |values|) && Stored(c2, |values|) && |x| > 0 && x[0] < 16
    ensures Stored(Fork(TwoChildren(n1, c1, n2, c2)), |values|)
    ensures Lookup(Fork(TwoChildren(n1, c1, n2, c2)), x, values) ==
            if x[0] == n1 then Lookup(c1, x[1..], values)
            else if x[0] == n2 then Lookup(c2, x[1..], values)
            else None
  {
  }

  /** Looking up in one of the two sides of a split, from the place where they part. */
  lemma SideLookup(k: Nibbles, s: Sparse, x: Nibbles, p: nat, values: seq<Bytes>)
    requires p < |k| <= |x| && Stored(s, |values|)
    ensures Stored(Under(k[p + 1..], s), |values|)
    ensures k[..p] <= x && x[p..][0] == k[p] ==>
              Lookup(Under(k[p + 1..], s), x[p..][1..], values) ==
              if k <= x then Lookup(s, x[|k|..], values) else None
    ensures k <= x ==> k[..p] <= x && x[p..][0] == k[p]
  {
    PrefixParts(k, x, p);
    UnderLookup(k[p + 1..], s, x[p..][1..], values);
  }

  lemma SplitLookup(k1: Nibbles, s1: Sparse, k2: Nibbles, s2: Sparse, x: Nibbles, values: seq<Bytes>)
    requires CommonPrefix(k1, k2) < |k1| && CommonPrefix(k1, k2) < |k2|
    requires Stored(s1, |values|) && Stored(s2, |values|)
    requires |k1| <= |x| && |k2| <= |x| && IsPath(x, |x|)
    ensures Stored(SplitAt(k1, s1, k2, s2), |values|)
    ensures Lookup(SplitAt(k1, s1, k2, s2), x, values) ==
            if k1 <= x then Lookup(s1, x[|k1|..], values)
            else if k2 <= x then Lookup(s2, x[|k2|..], values)
            else None
  {
    var p := CommonPrefix(k1, k2);
    SideLookup(k1, s1, x, p, values);
    SideLookup(k2, s2, x, p, values);
    var c1, c2 := Under(k1[p + 1..], s1), Under(k2[p + 1..], s2);
    TwoChildrenLookup(k1[p], c1, k2[p], c2, x[p..], values);
    UnderLookup(k1[..p], Fork(TwoChildren(k1[p], c1, k2[p], c2)), x, values);
  }

  lemma ForkUpdate(children: seq<Sparse>, i: nat, c: Sparse, len: nat)
    requires Sound(Fork(children), len) && i < 16 && Sound(c, len - 1)
    ensures Sound(Fork(children[i := c]), len)
  {
    assert Used(children[i := c]) == Used(children) + {i};
    assert Used(children) <= Used(children[i := c]);
    SubsetSize(Used(children), Used(children[i := c]));
  }

  lemma SubsetSize(s: set<nat>, t: set<nat>)
    requires s <= t
    ensures |s| <= |t|
  {
    assert t == s + (t - s);
  }

  lemma InsertSoundTip(s: Sparse, k: Nibbles, value: nat)
    requires IsPath(k, |k|) && s.Tip? && Sound(s, |k|)
    ensures Insert(s, k, value).Done? && Sound(Insert(s, k, value).trie, |k|)
  {
    if s.key != k {
      SplitSound(k, Tip([], value), s.key, Tip([], s.value), |k|);
    }
  }

  lemma InsertSoundSplit(s: Sparse, k: Nibbles, value: nat)
    requires IsPath(k, |k|) && s.Path? && Sound(s, |k|) && !(s.key <= k)
    ensures Insert(s, k, value).Done? && Sound(Insert(s, k, value).trie, |k|)
  {
    SplitSound(k, Tip([], value), s.key, s.next, |k|);
  }

  lemma {:induction false} InsertSound(s: Sparse, k: Nibbles, value: nat)
    requires IsPath(k, |k|) && (s.Nil? || Sound(s, |k|))
    ensures var r := Insert(s, k, value);
            r.Done? ==> Sound(r.trie, |k|) && (s.Fork? ==> r.trie.Fork?)
  {
    match s
    case Tip(_, _) => InsertSoundTip(s, k, value);
    case Path(key, next) =>
      if key <= k {
        InsertSound(next, k[|key|..], value);
      } else {
        InsertSoundSplit(s, k, value);
      }
    case Fork(children) =>
      InsertSound(children[k[0]], k[1..], value);
      var r := Insert(children[k[0]], k[1..], value);
      if r.Done? {
        ForkUpdate(children, k[0], r.trie, |k|);
      }
    case _ =>
  }

  /** What an insertion promises at every path `x`. */
  ghost predicate Updates(s: Sparse, k: Nibbles, r: Inserted, value: nat, x: Nibbles, values: seq<Bytes>)
    requires Stored(s, |values|) && r.Done? && value < |values|
  {
    && Stored(r.trie, |values|)
    && Lookup(r.trie, x, values) == (if x == k then Some(values[value]) else Lookup(s, x, values))
    && (r.replaced.Some? ==> r.replaced.value < |values|)
    && Lookup(s, k, values) == (if r.replaced.Some? then Some(values[r.replaced.value]) else None)
  }

  lemma {:induction false} InsertLookup(s: Sparse, k: Nibbles, value: nat, x: Nibbles, values: seq<Bytes>)
    requires IsPath(k, |k|) && (s.Nil? || Sound(s, |k|)) && Stored(s, |values|) && value < |values|
    requires IsPath(x, |k|) && Insert(s, k, value).Done?
    ensures Updates(s, k, Insert(s, k, value), value, x, values)
  {
    hide Updates;
    match s
    case Tip(_, _) => InsertLookupTip(s, k, value, x, values);
    case Path(key, next) =>
      if key <= k {
        var x' := if key <= x then x[|key|..] else k[|key|..];
        InsertLookup(next, k[|key|..], value, x', values);
        UpdatesPath(key, next, k, Insert(next, k[|key|..], value), value, x, values);
      } else {
        InsertLookupSplit(s, k, value, x, values);
      }
    case Fork(children) =>
      var x' := if x[0] == k[0] then x[1..] else k[1..];
      InsertLookup(children[k[0]], k[1..], value, x', values);
      UpdatesFork(children, k, Insert(children[k[0]], k[1..], value), value, x, values);
    case _ => InsertLookupNil(s, k, value, x, values);
  }

  lemma InsertLookupNil(s: Sparse, k: Nibbles, value: nat, x: Nibbles, values: seq<Bytes>)
    requires IsPath(k, |k|) && s.Nil? && value < |values| && IsPath(x, |k|)
    ensures Updates(s, k, Insert(s, k, value), value, x, values)
  {
  }

  lemma InsertLookupTip(s: Sparse, k: Nibbles, value: nat, x: Nibbles, values: seq<Bytes>)
    requires IsPath(k, |k|) && s.Tip? && Sound(s, |k|) && Stored(s, |values|) && value < |values| && IsPath(x, |k|)
    ensures Updates(s, k, Insert(s, k, value), value, x, values)
  {
    if s.key != k {
      SplitLookup(k, Tip([], value), s.key, Tip([], s.value), x, values);
    }
  }

  lemma InsertLookupSplit(s: Sparse, k: Nibbles, value: nat, x: Nibbles, values: seq<Bytes>)
    requires IsPath(k, |k|) && s.Path? && Sound(s, |k|) && Stored(s, |values|) && value < |values| && IsPath(x, |k|)
    requires !(s.key <= k)
    ensures Updates(s, k, Insert(s, k, value), value, x, values)
  {
    SplitLookup(k, Tip([], value), s.key, s.next, x, values);
  }

  lemma UpdatesPath(key: Nibbles, next: Sparse, k: Nibbles, r: Inserted, value: nat, x: Nibbles, values: seq<Bytes>)
    requires Stored(next, |values|) && r.Done? && value < |values| && key <= k
    requires Updates(next, k[|key|..], r, value, if key <= x then x[|key|..] else k[|key|..], values)
    ensures Updates(Path(key, next), k, Done(Path(key, r.trie), r.replaced), value, x, values)
  {
  }

  lemma UpdatesFork(children: seq<Sparse>, k: Nibbles, r: Inserted, value: nat, x: Nibbles, values: seq<Bytes>)
    requires |children| == 16 && Stored(Fork(children), |values|) && r.Done? && value < |values|
    requires |k| > 0 && |x| > 0 && k[0] < 16 && x[0] < 16
    requires Updates(children[k[0]], k[1..], r, value, if x[0] == k[0] then x[1..] else k[1..], values)
    ensures Updates(Fork(children), k, Done(Fork(children[k[0] := r.trie]), r.replaced), value, x, values)
  {
  }

  // ---------------------------------------------------------------------------
  // Deletion

  datatype Deleted = Removed(trie: Sparse, value: nat) | NoKey | Absent(path: Nibbles)

  /** The first other child of a branch, or the number of children when there is none. */
  function Other(children: seq<Sparse>, n: nat, from: nat): (o: nat)
    requires from <= |children|
    ensures from <= o <= |children|
    ensures o < |children| ==> o != n && !children[o].Nil?
    ensures forall i :: from <= i < o && i != n ==> children[i].Nil?
    decreases |children| - from
  {
    if from == |children| then from
    else if from != n && !children[from].Nil? then from
    else Other(children, n, from + 1)
  }

  /** A branch without its child `n`: a branch left with one child gives way to that child. */
  function Without(children: seq<Sparse>, n: nat): Sparse
    requires n < |children|
  {
    var o := Other(children, n, 0);
    if |Used(children)| == 2 && o < |children| then Under([o], children[o])
    else Fork(children[n := Nil])
  }

  /** Deleting below a branch, given the result `r` for the child that the path leads to. */
  function AtFork(children: seq<Sparse>, k: Nibbles, r: Deleted): Deleted
    requires |children| == 16 && |k| > 0 && k[0] < 16
  {
    var n := k[0];
    var o := Other(children, n, 0);
    if children[n].Nil? then NoKey
    else if children[n].Remote? then Absent(k)
    // an orphan must be loaded before the branch is dissolved
    else if |Used(children)| == 2 && o < |children| && children[o].Remote? then Absent([o])
    else
      match r
      case NoKey => NoKey
      case Absent(path) => Absent([n] + path)
      case Removed(child, value) =>
        Removed(if child.Nil? then Without(children, n) else Fork(children[n := child]), value)
  }

  function Delete(s: Sparse, k: Nibbles): Deleted
    requires IsPath(k, |k|) && (s.Nil? || Sound(s, |k|))
  {
    match s
    case Remote(_) => Absent(k)
    case Nil => NoKey
    case Tip(key, value) => if key == k then Removed(Nil, value) else NoKey
    case Path(key, next) =>
      if !(key <= k) then NoKey else
      (match Delete(next, k[|key|..])
       case NoKey => NoKey
       case Absent(path) => Absent(key + path)
       case Removed(next', value) => Removed(Under(key, next'), value))
    case Fork(children) => AtFork(children, k, Delete(children[k[0]], k[1..]))
  }

  lemma TwoUsed(children: seq<Sparse>, n: nat)
    requires n in Used(children) && |Used(children)| == 2
    ensures var o := Other(children, n, 0); o < |children| && o != n && Used(children) == {n, o}
  {
    var o := Other(children, n, 0);
    var others := Used(children) - {n};
    assert |others| == 1;
    var i :| i in others;
    assert others == {i} by {
      assert |others - {i}| == 0;
    }
    assert o <= i && o in others;
    assert Used(children) == {n} + others;
  }

  lemma WithoutSound(children: seq<Sparse>, n: nat, len: nat)
    requires Sound(Fork(children), len) && n in Used(children)
    requires |Used(children)| == 2 ==> !children[Other(children, n, 0) % 16].Remote?
    ensures Sound(Without(children, n), len) && !Without(children, n).Remote?
  {
    ForkIsSound(children, len);
    hide Sound;
    if |Used(children)| == 2 {
      TwoUsed(children, n);
      var o := Other(children, n, 0);
      UnderSound([o], children[o], len);
    } else {
      ForkWithoutSound(children, n, len);
    }
  }

  lemma ForkIsSound(children: seq<Sparse>, len: nat)
    requires Sound(Fork(children), len)
    ensures len > 0 && |children| == 16 && |Used(children)| >= 2
    ensures forall i :: 0 <= i < |children| && !children[i].Nil? ==> Sound(children[i], len - 1)
  {
  }

  lemma ForkWithoutSound(children: seq<Sparse>, n: nat, len: nat)
    requires Sound(Fork(children), len) && n in Used(children) && |Used(children)| > 2
    ensures Sound(Fork(children[n := Nil]), len)
  {
    assert Used(children[n := Nil]) == Used(children) - {n};
  }

  lemma {:induction false} DeleteSound(s: Sparse, k: Nibbles)
    requires IsPath(k, |k|) && (s.Nil? || Sound(s, |k|))
    ensures var r := Delete(s, k);
            r.Removed? ==> (r.trie.Nil? || Sound(r.trie, |k|)) && !r.trie.Remote? && (r.trie.Nil? ==> s.Tip?)
  {
    match s
    case Path(key, next) =>
      if key <= k {
        DeleteSound(next, k[|key|..]);
        var r := Delete(next, k[|key|..]);
        if r.Removed? {
          UnderSound(key, r.trie, |k|);
        }
      }
    case Fork(children) =>
      DeleteSound(children[k[0]], k[1..]);
      AtForkSound(children, k, Delete(children[k[0]], k[1..]));
    case _ =>
  }

  lemma AtForkSound(children: seq<Sparse>, k: Nibbles, r: Deleted)
    requires |children| == 16 && |k| > 0 && k[0] < 16 && Sound(Fork(children), |k|)
    requires r.Removed? ==> r.trie.Nil? || Sound(r.trie, |k| - 1)
    ensures var d := AtFork(children, k, r); d.Removed? ==> Sound(d.trie, |k|) && !d.trie.Remote?
  {
    hide Sound;
    if AtFork(children, k, r).Removed? {
      if r.trie.Nil? {
        WithoutSound(children, k[0], |k|);
      } else {
        ForkUpdate(children, k[0], r.trie, |k|);
      }
    }
  }

  /** What a deletion promises at every path `x`. */
  ghost predicate Removes(s: Sparse, k: Nibbles, r: Deleted, x: Nibbles, values: seq<Bytes>)
    requires Stored(s, |values|)
  {
    && (r.NoKey? ==> Lookup(s, k, values) == None)
    && (r.Removed? ==>
          && Stored(r.trie, |values|) && r.value < |values|
          && Lookup(s, k, values) == Some(values[r.value])
          && Lookup(r.trie, x, values) == if x == k then None else Lookup(s, x, values))
  }

  lemma {:induction false} DeleteLookup(s: Sparse, k: Nibbles, x: Nibbles, values: seq<Bytes>)
    requires IsPath(k, |k|) && (s.Nil? || Sound(s, |k|)) && Stored(s, |values|) && IsPath(x, |k|)
    ensures Removes(s, k, Delete(s, k), x, values)
  {
    match s
    case Path(key, next) =>
      if key <= k {
        var x' := if key <= x then x[|key|..] else k[|key|..];
        DeleteLookup(next, k[|key|..], x', values);
        RemovesPath(key, next, k, Delete(next, k[|key|..]), x, values);
      }
    case Fork(children) =>
      var x' := if x[0] == k[0] then x[1..] else k[1..];
      DeleteLookup(children[k[0]], k[1..], x', values);
      RemovesFork(children, k, Delete(children[k[0]], k[1..]), x, values);
    case _ =>
  }

  lemma RemovesPath(key: Nibbles, next: Sparse, k: Nibbles, r: Deleted, x: Nibbles, values: seq<Bytes>)
    requires Stored(next, |values|) && key <= k
    requires Removes(next, k[|key|..], r, if key <= x then x[|key|..] else k[|key|..], values)
    ensures r.NoKey? ==> Removes(Path(key, next), k, NoKey, x, values)
    ensures r.Removed? ==> Removes(Path(key, next), k, Removed(Under(key, r.trie), r.value), x, values)
  {
    hide Lookup, Under;
    PathLookup(key, next, k, values);
    PathLookup(key, next, x, values);
    if r.Removed? {
      UnderLookup(key, r.trie, x, values);
      if key <= x {
        assert x == key + x[|key|..] && k == key + k[|key|..];
      }
    }
  }

  lemma PathLookup(key: Nibbles, next: Sparse, x: Nibbles, values: seq<Bytes>)
    requires Stored(next, |values|)
    ensures Lookup(Path(key, next), x, values) == if key <= x then Lookup(next, x[|key|..], values) else None
  {
  }

  lemma WithoutLookup(children: seq<Sparse>, n: nat, x: Nibbles, values: seq<Bytes>)
    requires |children| == 16 && Stored(Fork(children), |values|) && n in Used(children)
    requires |x| > 0 && x[0] < 16
    ensures Stored(Without(children, n), |values|)
    ensures Lookup(Without(children, n), x, values) == if x[0] == n then None else Lookup(Fork(children), x, values)
  {
    if |Used(children)| == 2 {
      TwoUsed(children, n);
      var o := Other(children, n, 0);
      UnderLookup([o], children[o], x, values);
      assert x[0] != o && x[0] != n ==> x[0] !in Used(children);
      assert [o] <= x <==> x[0] == o;
    }
  }

  lemma RemovesFork(children: seq<Sparse>, k: Nibbles, r: Deleted, x: Nibbles, values: seq<Bytes>)
    requires |children| == 16 && Stored(Fork(children), |values|)
    requires |k| > 0 && |x| > 0 && k[0] < 16 && x[0] < 16
    requires Removes(children[k[0]], k[1..], r, if x[0] == k[0] then x[1..] else k[1..], values)
    ensures Removes(Fork(children), k, AtFork(children, k, r), x, values)
  {
    hide Lookup, Without, Used;
    assert x == [x[0]] + x[1..] && k == [k[0]] + k[1..];
    ForkLookup(children, k, values);
    ForkLookup(children, x, values);
    NilLookup(k[1..], values);
    if AtFork(children, k, r).Removed? {
      if r.trie.Nil? {
        ChildUsed(children, k[0]);
        WithoutLookup(children, k[0], x, values);
        NilLookup(x[1..], values);
      } else {
        ForkLookup(children[k[0] := r.trie], x, values);
      }
    }
  }

  lemma ForkLookup(children: seq<Sparse>, x: Nibbles, values: seq<Bytes>)
    requires Stored(Fork(children), |values|) && |x| > 0 && x[0] < |children|
    ensures Stored(children[x[0]], |values|)
    ensures Lookup(Fork(children), x, values) == Lookup(children[x[0]], x[1..], values)
  {
  }

  lemma ChildUsed(children: seq<Sparse>, n: nat)
    requires n < |children| && !children[n].Nil?
    ensures n in Used(children)
  {
  }

  lemma NilLookup(x: Nibbles, values: seq<Bytes>)
    ensures Lookup(Nil, x, values) == None
  {
  }

  // ---------------------------------------------------------------------------
  // Loading nodes

  /** Loads the nodes of a database trie that lie on `path`, storing the values at index `n` and on. */
  function Load(t: Full, path: Nibbles, n: nat): (Sparse, seq<Bytes>) {
    match t
    case Null => (Nil, [])
    case Leaf(key, value) => (Tip(key, n), [value])
    case Extension(key, next) =>
      if key <= path then
        var (s, more) := Load(next, path[|key|..], n);
        (Path(key, s), more)
      else (Path(key, Remote(next)), [])
    case Branch(children) =>
      var unloaded := seq(|children|, i requires 0 <= i < |children| =>
                          if children[i].Null? then Nil else Remote(children[i]));
      if |path| > 0 && path[0] < |children| then
        var (s, more) := Load(children[path[0]], path[1..], n);
        (Fork(unloaded[path[0] := s]), more)
      else (Fork(unloaded), [])
  }

  /** Loads the nodes on `path` that are still remote. */
  function Reveal(s: Sparse, path: Nibbles, n: nat): (Sparse, seq<Bytes>) {
    match s
    case Remote(full) => Load(full, path, n)
    case Path(key, next) =>
      if key <= path then
        var (next', more) := Reveal(next, path[|key|..], n);
        (Path(key, next'), more)
      else (s, [])
    case Fork(children) =>
      if |path| > 0 && path[0] < |children| then
        var (child, more) := Reveal(children[path[0]], path[1..], n);
        (Fork(children[path[0] := child]), more)
      else (s, [])
    case _ => (s, [])
  }

  /** `s` stands for `t`, in sound shape when `t` is solid. */
  ghost predicate Represents(s: Sparse, t: Full, values: seq<Bytes>) {
    && Stored(s, |values|) && Resolve(s, values) == t
  }

  lemma {:induction false} LoadKeepsTrie(t: Full, path: Nibbles, values: seq<Bytes>)
    ensures var (s, more) := Load(t, path, |values|); Represents(s, t, values + more)
  {
    match t
    case Extension(key, next) =>
      if key <= path {
        LoadKeepsTrie(next, path[|key|..], values);
      }
    case Branch(children) =>
      if |path| > 0 && path[0] < |children| {
        LoadKeepsTrie(children[path[0]], path[1..], values);
      }
      var (s, more) := Load(t, path, |values|);
      assert Resolve(s, values + more).children == children;
    case _ =>
  }

  lemma {:induction false} LoadSound(t: Full, path: Nibbles, n: nat, len: nat)
    requires Solid(t, len)
    ensures Sound(Load(t, path, n).0, len) && (t.Branch? ==> Load(t, path, n).0.Fork?)
  {
    match t
    case Extension(key, next) =>
      if key <= path {
        LoadSound(next, path[|key|..], n, len - |key|);
      }
    case Branch(children) =>
      if |path| > 0 && path[0] < |children| && !children[path[0]].Null? {
        LoadSound(children[path[0]], path[1..], n, len - 1);
      }
      assert Used(Load(t, path, n).0.children) == Occupied(children);
    case _ =>
  }

  lemma {:induction false} RevealKeepsTrie(s: Sparse, path: Nibbles, values: seq<Bytes>)
    requires Stored(s, |values|)
    ensures var (s', more) := Reveal(s, path, |values|); Represents(s', Resolve(s, values), values + more)
  {
    match s
    case Remote(full) => LoadKeepsTrie(full, path, values);
    case Path(key, next) =>
      if key <= path {
        RevealKeepsTrie(next, path[|key|..], values);
      }
      assert values + [] == values;
    case Fork(children) =>
      if |path| > 0 && path[0] < |children| {
        RevealKeepsTrie(children[path[0]], path[1..], values);
        RevealFork(children, path, values);
      }
      assert values + [] == values;
    case _ => assert values + [] == values;
  }

  lemma RevealFork(children: seq<Sparse>, path: Nibbles, values: seq<Bytes>)
    requires Stored(Fork(children), |values|) && |path| > 0 && path[0] < |children|
    requires var (c, more) := Reveal(children[path[0]], path[1..], |values|);
             Represents(c, Resolve(children[path[0]], values), values + more)
    ensures var (s', more) := Reveal(Fork(children), path, |values|);
            Represents(s', Resolve(Fork(children), values), values + more)
  {
    var (s', more) := Reveal(Fork(children), path, |values|);
    forall i | 0 <= i < |children| && i != path[0]
      ensures Stored(children[i], |values + more|)
      ensures Resolve(children[i], values + more) == Resolve(children[i], values)
    {
      ResolveExtend(children[i], values, values + more);
    }
    assert Resolve(s', values + more).children == Resolve(Fork(children), values).children;
  }

  lemma {:induction false} RevealSound(s: Sparse, path: Nibbles, n: nat, len: nat)
    requires Sound(s, len)
    ensures Sound(Reveal(s, path, n).0, len)
    ensures s.Fork? || (s.Remote? && s.full.Branch?) ==> Reveal(s, path, n).0.Fork?
  {
    match s
    case Remote(full) => LoadSound(full, path, n, len);
    case Path(key, next) =>
      if key <= path {
        RevealSound(next, path[|key|..], n, len - |key|);
      }
    case Fork(children) =>
      if |path| > 0 && path[0] < |children| && !children[path[0]].Nil? {
        RevealSound(children[path[0]], path[1..], n, len - 1);
        ForkUpdate(children, path[0], Reveal(children[path[0]], path[1..], n).0, len);
      } else {
        assert Reveal(s, path, n).0.children == children;
      }
    case _ =>
  }

  // ---------------------------------------------------------------------------
  // Paths that are loaded

  /** Nothing on the way along `k` is remote. */
  ghost predicate Walked(s: Sparse, k: Nibbles) {
    match s
    case Path(key, next) => key <= k ==> Walked(next, k[|key|..])
    case Fork(children) => |k| > 0 && k[0] < |children| ==> Walked(children[k[0]], k[1..])
    case Remote(_) => false
    case _ => true
  }

  lemma {:induction false} LoadWalks(t: Full, path: Nibbles, n: nat)
    ensures Walked(Load(t, path, n).0, path)
  {
    match t
    case Extension(key, next) =>
      if key <= path {
        LoadWalks(next, path[|key|..], n);
      }
    case Branch(children) =>
      if |path| > 0 && path[0] < |children| {
        LoadWalks(children[path[0]], path[1..], n);
      }
    case _ =>
  }

  /** Loading the nodes on a path leaves nothing remote on it. */
  lemma {:induction false} RevealWalks(s: Sparse, path: Nibbles, n: nat)
    ensures Walked(Reveal(s, path, n).0, path)
  {
    match s
    case Remote(full) => LoadWalks(full, path, n);
    case Path(key, next) =>
      if key <= path {
        RevealWalks(next, path[|key|..], n);
      }
    case Fork(children) =>
      if |path| > 0 && path[0] < |children| {
        RevealWalks(children[path[0]], path[1..], n);
      }
    case _ =>
  }

  /** Loading the nodes on another path makes nothing remote. */
  lemma {:induction false} RevealKeepsWalked(s: Sparse, path: Nibbles, n: nat, k: Nibbles)
    requires Walked(s, k)
    ensures Walked(Reveal(s, path, n).0, k)
  {
    match s
    case Path(key, next) =>
      if key <= path && key <= k {
        RevealKeepsWalked(next, path[|key|..], n, k[|key|..]);
      }
    case Fork(children) =>
      if |path| > 0 && path[0] < |children| && |k| > 0 && k[0] == path[0] {
        RevealKeepsWalked(children[path[0]], path[1..], n, k[1..]);
      }
    case _ =>
  }

  /** An insertion misses a node exactly when one on its way is remote. */
  lemma {:induction false} InsertMisses(s: Sparse, k: Nibbles, value: nat)
    requires IsPath(k, |k|) && (s.Nil? || Sound(s, |k|))
    ensures Insert(s, k, value).Missing? <==> !Walked(s, k)
  {
    match s
    case Path(key, next) =>
      if key <= k {
        InsertMisses(next, k[|key|..], value);
      }
    case Fork(children) => InsertMisses(children[k[0]], k[1..], value);
    case _ =>
  }

  // ---------------------------------------------------------------------------
  // Tries that are loaded completely

  ghost predicate Loaded(s: Sparse) {
    match s
    case Path(_, next) => Loaded(next)
    case Fork(children) => forall i :: 0 <= i < |children| ==> Loaded(children[i])
    case Remote(_) => false
    case _ => true
  }

  /** With everything loaded an insertion misses nothing. */
  lemma {:induction false} InsertLoaded(s: Sparse, k: Nibbles, value: nat)
    requires IsPath(k, |k|) && (s.Nil? || Sound(s, |k|)) && Loaded(s)
    ensures Insert(s, k, value).Done? && Loaded(Insert(s, k, value).trie)
  {
    match s
    case Path(key, next) =>
      if key <= k {
        InsertLoaded(next, k[|key|..], value);
      }
    case Fork(children) => InsertLoaded(children[k[0]], k[1..], value);
    case _ =>
  }

  /** With everything loaded a deletion misses nothing. */
  lemma {:induction false} DeleteLoaded(s: Sparse, k: Nibbles)
    requires IsPath(k, |k|) && (s.Nil? || Sound(s, |k|)) && Loaded(s)
    ensures !Delete(s, k).Absent? && (Delete(s, k).Removed? ==> Loaded(Delete(s, k).trie))
  {
    match s
    case Path(key, next) =>
      if key <= k {
        DeleteLoaded(next, k[|key|..]);
      }
    case Fork(children) => DeleteLoaded(children[k[0]], k[1..]);
    case _ =>
  }

  // ---------------------------------------------------------------------------
  // Hashing

  /** The foreign encoders: RLP of leaves, extensions and branches, and keccak. */
  datatype Hashing = Hashing(
    leaf: (Nibbles, Bytes) -> Bytes,
    extension: (Nibbles, Bytes) -> Bytes,
    branch: seq<Option<Bytes>> -> Bytes,
    keccak: Bytes -> Bytes)
  {
    /** How a parent refers to a node: by its RLP when short, by its hash otherwise. */
    function Pointer(rlp: Bytes): Bytes {
      if |rlp| < 32 then rlp else [0xa0] + keccak(rlp)
    }
  }

  const EMPTY_STRING_CODE: nat := 0x80

  function FullRlp(h: Hashing, t: Full): Bytes {
    match t
    case Null => [EMPTY_STRING_CODE]
    case Leaf(key, value) => h.leaf(key, value)
    case Extension(key, next) => h.extension(key, h.Pointer(FullRlp(h, next)))
    case Branch(children) =>
      h.branch(seq(|children|, i requires 0 <= i < |children| =>
                   if children[i].Null? then None else Some(h.Pointer(FullRlp(h, children[i])))))
  }

  /** The RLP of a loaded node; a remote child contributes the pointer kept with its proof. */
  function SparseRlp(h: Hashing, s: Sparse, values: seq<Bytes>): Bytes
    requires Stored(s, |values|)
  {
    match s
    case Nil => [EMPTY_STRING_CODE]
    case Tip(key, value) => h.leaf(key, values[value])
    case Path(key, next) => h.extension(key, h.Pointer(SparseRlp(h, next, values)))
    case Fork(children) =>
      h.branch(seq(|children|, i requires 0 <= i < |children| =>
                   if children[i].Nil? then None else Some(h.Pointer(SparseRlp(h, children[i], values)))))
    case Remote(full) => FullRlp(h, full)
  }

  /** Hashing what is loaded gives the hash of the whole trie. */
  lemma {:induction false} SparseRlpIsFullRlp(h: Hashing, s: Sparse, values: seq<Bytes>, len: nat)
    requires Stored(s, |values|) && (s.Nil? || Sound(s, len))
    ensures SparseRlp(h, s, values) == FullRlp(h, Resolve(s, values))
  {
    match s
    case Path(key, next) => SparseRlpIsFullRlp(h, next, values, len - |key|);
    case Fork(children) =>
      var resolved := Resolve(s, values).children;
      forall i | 0 <= i < |children|
        ensures children[i].Nil? <==> resolved[i].Null?
        ensures SparseRlp(h, children[i], values) == FullRlp(h, resolved[i])
      {
        SparseRlpIsFullRlp(h, children[i], values, len - 1);
        if !children[i].Nil? {
          SoundIsSolid(children[i], len - 1, values);
        }
      }
      var loaded := seq(|children|, i requires 0 <= i < |children| =>
                        if children[i].Nil? then None else Some(h.Pointer(SparseRlp(h, children[i], values))));
      var whole := seq(|resolved|, i requires 0 <= i < |resolved| =>
                       if resolved[i].Null? then None else Some(h.Pointer(FullRlp(h, resolved[i]))));
      assert loaded == whole;
      assert SparseRlp(h, s, values) == h.branch(loaded) && FullRlp(h, Resolve(s, values)) == h.branch(whole);
    case _ =>
  }

  // ---------------------------------------------------------------------------
  // The trie as its callers see it

  /** The nibbles of a keccak hash. */
  const KEY_NIBBLES: nat := 64

  type Map = imap<Nibbles, Bytes>

  datatype InsertOutcome = InsertOk(replaced: Option<nat>) | InsertNotFound(path: Nibbles)
  datatype DeleteOutcome = DeleteOk(removed: nat) | KeyNotFound | DeleteNotFound(path: Nibbles)

  /** A trie over the database: before any node is loaded its root is remote.
      Values are only ever appended, so an index into them is a lasting handle. */
  datatype Trie = Trie(root: Sparse, values: seq<Bytes>) {

    ghost predicate Valid() {
      && Stored(root, |values|)
      && (root.Nil? || Sound(root, KEY_NIBBLES) || (root.Remote? && root.full.Null?))
    }

    ghost function AsMap(): Map
      requires Valid()
    {
      Contents(Resolve(root, values), KEY_NIBBLES)
    }

    predicate IsUninit() {
      root.Remote?
    }

    lemma AtKey(k: Nibbles)
      requires Valid() && IsPath(k, KEY_NIBBLES)
      ensures k in AsMap() <==> Lookup(root, k, values).Some?
      ensures k in AsMap() ==> AsMap()[k] == Lookup(root, k, values).value
    {
      LookupIsGet(root, k, values);
    }

    /** Inserts a value that is already stored. */
    function InsertStored(k: Nibbles, value: nat): (r: (Trie, InsertOutcome))
      requires Valid() && IsPath(k, KEY_NIBBLES) && value < |values|
      ensures r.1.InsertNotFound? ==> r.0 == this
      ensures r.1.InsertOk? ==> r.0.Valid() && r.0.values == values
      ensures r.1.InsertOk? ==> r.0.AsMap() == AsMap()[k := values[value]]
      ensures r.1.InsertOk? ==> (r.1.replaced.Some? <==> k in AsMap())
      ensures r.1.InsertOk? && r.1.replaced.Some? ==>
                r.1.replaced.value < |values| && values[r.1.replaced.value] == AsMap()[k]
    {
      if IsUninit() then (this, InsertNotFound(k)) else
      match Insert(root, k, value)
      case Missing(path) => (this, InsertNotFound(path))
      case Done(root', replaced) =>
        InsertIsUpdate(this, k, value);
        (Trie(root', values), InsertOk(replaced))
    }

    /** Inserts a new value, storing it only when the path is loaded. */
    function InsertValue(k: Nibbles, value: Bytes): (r: (Trie, InsertOutcome))
      requires Valid() && IsPath(k, KEY_NIBBLES)
      ensures r.1.InsertNotFound? ==> r.0 == this
      ensures r.1.InsertOk? ==> r.0.Valid() && values <= r.0.values
      ensures r.1.InsertOk? ==> r.0.AsMap() == AsMap()[k := value]
      ensures r.1.InsertOk? ==> (r.1.replaced.Some? <==> k in AsMap())
      ensures r.1.InsertOk? && r.1.replaced.Some? ==>
                r.1.replaced.value < |values| && values[r.1.replaced.value] == AsMap()[k]
    {
      ResolveExtend(root, values, values + [value]);
      var (t, outcome) := Trie(root, values + [value]).InsertStored(k, |values|);
      InsertedElsewhere(this, k, value);
      if outcome.InsertNotFound? then (this, outcome) else (t, outcome)
    }

    function DeleteKey(k: Nibbles): (r: (Trie, DeleteOutcome))
      requires Valid() && IsPath(k, KEY_NIBBLES)
      ensures !r.1.DeleteOk? ==> r.0 == this
      ensures r.1.KeyNotFound? ==> k !in AsMap()
      ensures r.1.DeleteOk? ==> r.0.Valid() && r.0.values == values
      ensures r.1.DeleteOk? ==> r.0.AsMap() == AsMap() - {k}
      ensures r.1.DeleteOk? ==> k in AsMap() && r.1.removed < |values| && values[r.1.removed] == AsMap()[k]
    {
      if IsUninit() then (this, DeleteNotFound(k)) else
      DeleteIsRemoval(this, k);
      match Delete(root, k)
      case Absent(path) => (this, DeleteNotFound(path))
      case NoKey => (this, KeyNotFound)
      case Removed(root', removed) => (Trie(root', values), DeleteOk(removed))
    }

    lemma ProofKeepsWalked(path: Nibbles)
      ensures forall k :: Walked(root, k) ==> Walked(Reveal(root, path, |values|).0, k)
    {
      forall k | Walked(root, k)
        ensures Walked(Reveal(root, path, |values|).0, k)
      {
        RevealKeepsWalked(root, path, |values|, k);
      }
    }

    /** Loads the proof of a path: afterwards nothing on the path is remote. */
    function AddProof(path: Nibbles): (r: Trie)
      requires Valid()
      ensures r.Valid() && values <= r.values && r.AsMap() == AsMap()
      ensures Walked(r.root, path) && forall k :: Walked(root, k) ==> Walked(r.root, k)
    {
      RevealKeepsTrie(root, path, values);
      RevealWalks(root, path, |values|);
      ProofKeepsWalked(path);
      assert root.Nil? || Sound(root, KEY_NIBBLES) ==>
               Reveal(root, path, |values|).0.Nil? || Sound(Reveal(root, path, |values|).0, KEY_NIBBLES) by {
        if Sound(root, KEY_NIBBLES) { RevealSound(root, path, |values|, KEY_NIBBLES); }
      }
      var (root', more) := Reveal(root, path, |values|);
      Trie(root', values + more)
    }

    lemma StoredInsertLoaded(k: Nibbles, value: nat)
      requires Valid() && IsPath(k, KEY_NIBBLES) && value < |values| && Loaded(root)
      ensures InsertStored(k, value).1.InsertOk? && Loaded(InsertStored(k, value).0.root)
    {
      InsertLoaded(root, k, value);
    }

    lemma ValueInsertLoaded(k: Nibbles, value: Bytes)
      requires Valid() && IsPath(k, KEY_NIBBLES) && Loaded(root)
      ensures InsertValue(k, value).1.InsertOk? && Loaded(InsertValue(k, value).0.root)
    {
      InsertLoaded(root, k, |values|);
    }

    lemma DeleteKeyLoaded(k: Nibbles)
      requires Valid() && IsPath(k, KEY_NIBBLES) && Loaded(root)
      ensures !DeleteKey(k).1.DeleteNotFound? && Loaded(DeleteKey(k).0.root)
    {
      DeleteLoaded(root, k);
    }

    function RootHash(h: Hashing): Bytes
      requires Valid()
    {
      h.keccak(SparseRlp(h, root, values))
    }
  }

  lemma InsertIsUpdate(t: Trie, k: Nibbles, value: nat)
    requires t.Valid() && !t.IsUninit() && IsPath(k, KEY_NIBBLES) && value < |t.values|
    requires Insert(t.root, k, value).Done?
    ensures var r := Insert(t.root, k, value);
            var t' := Trie(r.trie, t.values);
            && t'.Valid() && t'.AsMap() == t.AsMap()[k := t.values[value]]
            && (r.replaced.Some? <==> k in t.AsMap())
            && (r.replaced.Some? ==> r.replaced.value < |t.values| && t.values[r.replaced.value] == t.AsMap()[k])
  {
    var r := Insert(t.root, k, value);
    InsertSound(t.root, k, value);
    InsertLookup(t.root, k, value, k, t.values);
    var t' := Trie(r.trie, t.values);
    t.AtKey(k);
    forall x | IsPath(x, KEY_NIBBLES)
      ensures x in t'.AsMap() <==> x in t.AsMap()[k := t.values[value]]
      ensures x in t'.AsMap() ==> t'.AsMap()[x] == t.AsMap()[k := t.values[value]][x]
    {
      InsertLookup(t.root, k, value, x, t.values);
      t.AtKey(x);
      t'.AtKey(x);
    }
    assert t'.AsMap() == t.AsMap()[k := t.values[value]];
  }

  lemma InsertedElsewhere(t: Trie, k: Nibbles, value: Bytes)
    requires t.Valid() && IsPath(k, KEY_NIBBLES)
    ensures var u := Trie(t.root, t.values + [value]); u.Valid() && u.AsMap() == t.AsMap()
    ensures !t.IsUninit() && Insert(t.root, k, |t.values|).Done? ==>
              var r := Insert(t.root, k, |t.values|); r.replaced.Some? ==> r.replaced.value < |t.values|
  {
    ResolveExtend(t.root, t.values, t.values + [value]);
    if !t.IsUninit() {
      ReplacedStored(t.root, k, |t.values|, |t.values|);
    }
  }

  lemma {:induction false} ReplacedStored(s: Sparse, k: Nibbles, value: nat, n: nat)
    requires IsPath(k, |k|) && (s.Nil? || Sound(s, |k|)) && Stored(s, n)
    ensures var r := Insert(s, k, value); r.Done? && r.replaced.Some? ==> r.replaced.value < n
  {
    match s
    case Path(key, next) =>
      if key <= k {
        ReplacedStored(next, k[|key|..], value, n);
      }
    case Fork(children) => ReplacedStored(children[k[0]], k[1..], value, n);
    case _ =>
  }

  lemma DeleteIsRemoval(t: Trie, k: Nibbles)
    requires t.Valid() && !t.IsUninit() && IsPath(k, KEY_NIBBLES)
    ensures var r := Delete(t.root, k);
            && (r.NoKey? ==> k !in t.AsMap())
            && (r.Removed? ==>
                  && var t' := Trie(r.trie, t.values);
                  && t'.Valid() && t'.AsMap() == t.AsMap() - {k}
                  && k in t.AsMap() && r.value < |t.values| && t.values[r.value] == t.AsMap()[k])
  {
    var r := Delete(t.root, k);
    DeleteSound(t.root, k);
    DeleteLookup(t.root, k, k, t.values);
    t.AtKey(k);
    if r.Removed? {
      var t' := Trie(r.trie, t.values);
      forall x | IsPath(x, KEY_NIBBLES)
        ensures x in t'.AsMap() <==> x in t.AsMap() - {k}
        ensures x in t'.AsMap() ==> t'.AsMap()[x] == t.AsMap()[x]
      {
        DeleteLookup(t.root, k, x, t.values);
        t.AtKey(x);
        t'.AtKey(x);
      }
      assert t'.AsMap() == t.AsMap() - {k};
    }
  }

  /** The root of whatever trie holds exactly `m`. */
  ghost function RootOf(h: Hashing, m: Map): Bytes {
    if exists t :: Canonical(t, KEY_NIBBLES) && Contents(t, KEY_NIBBLES) == m then
      var t :| Canonical(t, KEY_NIBBLES) && Contents(t, KEY_NIBBLES) == m;
      h.keccak(FullRlp(h, t))
    else []
  }

  /** A root hash is a function of the contents, whatever operations led to them and whatever is loaded. */
  lemma RootHashIsRootOf(h: Hashing, t: Trie)
    requires t.Valid()
    ensures t.RootHash(h) == RootOf(h, t.AsMap())
  {
    var full := Resolve(t.root, t.values);
    if Sound(t.root, KEY_NIBBLES) {
      SoundIsSolid(t.root, KEY_NIBBLES, t.values);
      SparseRlpIsFullRlp(h, t.root, t.values, KEY_NIBBLES);
    }
    assert t.RootHash(h) == h.keccak(FullRlp(h, full));
    assert Canonical(full, KEY_NIBBLES) && Contents(full, KEY_NIBBLES) == t.AsMap();
    var u :| Canonical(u, KEY_NIBBLES) && Contents(u, KEY_NIBBLES) == t.AsMap()
        && RootOf(h, t.AsMap()) == h.keccak(FullRlp(h, u));
    SameContentsSameTrie(full, u, KEY_NIBBLES);
  }
}
