/**
  The root of a Merkle Patricia trie as appendix D of the Yellow Paper defines it: over the keys and values alone, with
  no trie in between. `RootIsDefined` shows that the root computed from a canonical trie is that.
 */
module TrieRoots {
  import opened Wrappers
  import opened SparseTrie

  ghost predicate Empty(m: Map) {
    forall k :: k !in m
  }

  /** The map has one key. */
  ghost predicate Single(m: Map, k: Nibbles) {
    k in m && forall j :: j in m ==> j == k
  }

  /** All keys begin alike. */
  ghost predicate Shared(m: Map, p: Nibbles) {
    forall k :: k in m ==> p <= k
  }

  ghost predicate LongestShared(m: Map, p: Nibbles) {
    Shared(m, p) && forall q :: Shared(m, q) ==> |q| <= |p|
  }

  /** What comes after `p` in the keys that begin with it. */
  ghost function Below(m: Map, p: Nibbles): Map {
    imap x: Nibbles | p + x in m :: m[p + x]
  }

  /** How a node is referred to: as it is when short, and by its hash, as a string of 32 bytes, otherwise. */
  ghost function Reference(h: Hashing, node: Bytes): Bytes {
    if |node| < 32 then node else [0xa0] + h.keccak(node)
  }

  /** The node for a map of keys of `len` nibbles: a leaf for a single key, an extension for what all keys begin with,
      and otherwise a branch on the first nibble. */
  ghost function Node(h: Hashing, m: Map, len: nat): Bytes
    decreases len
  {
    if exists k :: Single(m, k) then
      var k :| Single(m, k); h.leaf(k, m[k])
    else if exists p :: LongestShared(m, p) && 0 < |p| < len then
      var p :| LongestShared(m, p) && 0 < |p| < len;
      h.extension(p, Reference(h, Node(h, Below(m, p), len - |p|)))
    else if len == 0 then []
    else
      h.branch(seq(16, i requires 0 <= i < 16 =>
                   if Empty(Below(m, [i])) then None else Some(Reference(h, Node(h, Below(m, [i]), len - 1)))))
  }

  /** The root hash of a map of keys of 64 nibbles; that of the empty map is the hash of the empty string's encoding. */
  ghost function Root(h: Hashing, m: Map): Bytes {
    h.keccak(if Empty(m) then [0x80] else Node(h, m, 64))
  }

  lemma InContents(t: Full, len: nat, k: Nibbles)
    ensures k in Contents(t, len) <==> IsPath(k, len) && Get(t, k).Some?
    ensures k in Contents(t, len) ==> Contents(t, len)[k] == Get(t, k).value
  {
  }

  lemma ContentsExtension(key: Nibbles, next: Full, len: nat)
    requires Solid(Extension(key, next), len)
    ensures Below(Contents(Extension(key, next), len), key) == Contents(next, len - |key|)
  {
    var m := Contents(Extension(key, next), len);
    forall x: Nibbles
      ensures key + x in m <==> x in Contents(next, len - |key|)
      ensures key + x in m ==> m[key + x] == Contents(next, len - |key|)[x]
    {
      assert (key + x)[|key|..] == x;
      assert IsPath(key + x, len) <==> IsPath(x, len - |key|) by {
        assert forall i :: 0 <= i < |x| ==> (key + x)[|key| + i] == x[i];
      }
    }
    assert Below(m, key) == Contents(next, len - |key|);
  }

  lemma ContentsBranch(children: seq<Full>, len: nat, i: nat)
    requires Solid(Branch(children), len) && i < 16
    ensures Below(Contents(Branch(children), len), [i]) == Contents(children[i], len - 1)
  {
    var m := Contents(Branch(children), len);
    forall x: Nibbles
      ensures [i] + x in m <==> x in Contents(children[i], len - 1)
      ensures [i] + x in m ==> m[[i] + x] == Contents(children[i], len - 1)[x]
    {
      assert ([i] + x)[1..] == x;
      assert IsPath([i] + x, len) <==> IsPath(x, len - 1) by {
        assert forall j :: 0 <= j < |x| ==> ([i] + x)[1 + j] == x[j];
      }
    }
    assert Below(m, [i]) == Contents(children[i], len - 1);
  }

  lemma NotSingle(t: Full, len: nat)
    requires Solid(t, len) && !t.Leaf?
    ensures !exists k :: Single(Contents(t, len), k)
  {
    var k1, k2 := TwoKeys(t, len);
    InContents(t, len, k1);
    InContents(t, len, k2);
  }

  /** The keys of an extension begin with its nibbles and share no more. */
  lemma ExtensionShares(key: Nibbles, next: Full, len: nat)
    requires Solid(Extension(key, next), len)
    ensures var m := Contents(Extension(key, next), len);
            LongestShared(m, key) && forall p :: LongestShared(m, p) ==> p == key
  {
    var t := Extension(key, next);
    var m := Contents(t, len);
    var k1, k2 := ExtensionKeys(key, next, len);
    InContents(t, len, k1);
    InContents(t, len, k2);
    forall q | Shared(m, q)
      ensures q <= key
    {
      assert q <= k1 && q <= k2;
      assert q == k1[..|q|] && key == k1[..|key|];
    }
  }

  lemma BranchShares(children: seq<Full>, len: nat)
    requires Solid(Branch(children), len)
    ensures forall p :: LongestShared(Contents(Branch(children), len), p) ==> p == []
  {
    var t := Branch(children);
    var k1, k2 := TwoKeys(t, len);
    InContents(t, len, k1);
    InContents(t, len, k2);
  }

  lemma EmptyIsNull(t: Full, len: nat)
    requires Canonical(t, len)
    ensures Empty(Contents(t, len)) <==> t.Null?
  {
    if !t.Null? {
      var k := SolidHasKey(t, len);
      InContents(t, len, k);
    }
  }

  lemma NodeOfSingle(h: Hashing, m: Map, len: nat, k: Nibbles)
    requires Single(m, k)
    ensures Node(h, m, len) == h.leaf(k, m[k])
  {
  }

  lemma NodeOfShared(h: Hashing, m: Map, len: nat, p: Nibbles)
    requires (!exists k :: Single(m, k)) && LongestShared(m, p) && 0 < |p| < len
    requires forall q :: LongestShared(m, q) ==> q == p
    ensures Node(h, m, len) == h.extension(p, Reference(h, Node(h, Below(m, p), len - |p|)))
  {
    hide Single, LongestShared, Below;
  }

  lemma NodeOfBranch(h: Hashing, m: Map, len: nat)
    requires (!exists k :: Single(m, k)) && len > 0 && forall p :: LongestShared(m, p) ==> p == []
    ensures Node(h, m, len) ==
              h.branch(seq(16, i requires 0 <= i < 16 =>
                           if Empty(Below(m, [i])) then None else Some(Reference(h, Node(h, Below(m, [i]), len - 1)))))
  {
    hide Single, LongestShared, Below, Empty;
  }

  /** The encoding of a canonical trie is the node of its contents. */
  lemma {:induction false} RlpIsNode(h: Hashing, t: Full, len: nat)
    requires Solid(t, len)
    ensures FullRlp(h, t) == Node(h, Contents(t, len), len)
    decreases len, 1
  {
    hide Contents, Below, Node, Single, LongestShared;
    var m := Contents(t, len);
    match t
    case Leaf(key, value) =>
      LeafSingle(key, value, len);
      NodeOfSingle(h, m, len, key);
    case Extension(key, next) =>
      NotSingle(t, len);
      ExtensionShares(key, next, len);
      ContentsExtension(key, next, len);
      NodeOfShared(h, m, len, key);
      RlpIsNode(h, next, len - |key|);
    case Branch(children) =>
      NotSingle(t, len);
      BranchShares(children, len);
      NodeOfBranch(h, m, len);
      BranchIsNode(h, children, len);
  }

  lemma LeafSingle(key: Nibbles, value: Bytes, len: nat)
    requires IsPath(key, len)
    ensures var m := Contents(Leaf(key, value), len);
            Single(m, key) && m[key] == value && forall k :: Single(m, k) ==> k == key
  {
  }

  lemma {:induction false} BranchIsNode(h: Hashing, children: seq<Full>, len: nat)
    requires Solid(Branch(children), len)
    ensures var m := Contents(Branch(children), len);
            FullRlp(h, Branch(children)) ==
              h.branch(seq(16, i requires 0 <= i < 16 =>
                           if Empty(Below(m, [i])) then None else Some(Reference(h, Node(h, Below(m, [i]), len - 1)))))
    decreases len, 0
  {
    hide Contents, Below, Node, Empty;
    var m := Contents(Branch(children), len);
    var left := seq(|children|, i requires 0 <= i < |children| =>
                    if children[i].Null? then None else Some(h.Pointer(FullRlp(h, children[i]))));
    var right := seq(16, i requires 0 <= i < 16 =>
                     if Empty(Below(m, [i])) then None else Some(Reference(h, Node(h, Below(m, [i]), len - 1))));
    forall i | 0 <= i < 16
      ensures left[i] == right[i]
    {
      ContentsBranch(children, len, i);
      EmptyIsNull(children[i], len - 1);
      if !children[i].Null? {
        assert children[i] in children;
        RlpIsNode(h, children[i], len - 1);
      }
    }
    assert left == right;
  }

  /** The root of whatever canonical trie holds a map is the root of the map. */
  lemma RootIsDefined(h: Hashing, t: Full)
    requires Canonical(t, KEY_NIBBLES)
    ensures RootOf(h, Contents(t, KEY_NIBBLES)) == Root(h, Contents(t, KEY_NIBBLES))
  {
    hide Contents, FullRlp, Node;
    var m := Contents(t, KEY_NIBBLES);
    var u :| Canonical(u, KEY_NIBBLES) && Contents(u, KEY_NIBBLES) == m && RootOf(h, m) == h.keccak(FullRlp(h, u));
    EmptyIsNull(u, KEY_NIBBLES);
    if u.Null? {
      NullRlp(h);
    } else {
      RlpIsNode(h, u, KEY_NIBBLES);
    }
  }

  lemma NullRlp(h: Hashing)
    ensures FullRlp(h, Null) == [0x80]
  {
  }
}
