/**
  The compact SSZ transaction tree: it stores only the nodes above real leaves and takes
  everything else from the precomputed hashes of all-zero subtrees. Its branches are those
  of the tree padded with zero leaves to its full width, for every depth and every pair hash.
 */
module SszTree {
  import opened Wrappers

  // ---------------------------------------------------------------------------
  // The padded tree

  /** The hash of an all-zero subtree of height `k`. */
  function Zero<B>(sha: (B, B) -> B, zero: B, k: nat): B {
    if k == 0 then zero else sha(Zero(sha, zero, k - 1), Zero(sha, zero, k - 1))
  }

  /** Node `i` of level `level` of the tree whose leaves are `leaves` followed by zeros. */
  function Node<B>(sha: (B, B) -> B, zero: B, leaves: seq<B>, level: nat, i: nat): B {
    if level == 0 then
      if i < |leaves| then leaves[i] else zero
    else
      sha(Node(sha, zero, leaves, level - 1, 2 * i), Node(sha, zero, leaves, level - 1, 2 * i + 1))
  }

  function Pow2(n: nat): nat {
    if n == 0 then 1 else 2 * Pow2(n - 1)
  }

  function ShiftRight(i: nat, n: nat): nat {
    if n == 0 then i else ShiftRight(i, n - 1) / 2
  }

  /** The index with the last bit flipped. */
  function Sibling(i: nat): nat {
    if i % 2 == 0 then i + 1 else i - 1
  }

  /** The siblings on the way from leaf `target` up to height `depth`. */
  ghost function Branch<B>(sha: (B, B) -> B, zero: B, leaves: seq<B>, target: nat, depth: nat): seq<B> {
    seq(depth, l requires l >= 0 => Node(sha, zero, leaves, l, Sibling(ShiftRight(target, l))))
  }

  /** The root that a leaf and a branch lead to. */
  function Fold<B>(sha: (B, B) -> B, leaf: B, index: nat, branch: seq<B>): B
    decreases |branch|
  {
    if branch == [] then leaf
    else
      var parent := if index % 2 == 0 then sha(leaf, branch[0]) else sha(branch[0], leaf);
      Fold(sha, parent, index / 2, branch[1..])
  }

  lemma {:induction false} ShiftTwice(i: nat, n: nat)
    ensures ShiftRight(i / 2, n) == ShiftRight(i, n + 1)
  {
    if n > 0 {
      ShiftTwice(i, n - 1);
    }
  }

  lemma {:induction false} ShiftOut(i: nat, n: nat)
    requires i < Pow2(n)
    ensures ShiftRight(i, n) == 0
  {
    if n > 0 {
      ShiftTwice(i, n - 1);
      ShiftOut(i / 2, n - 1);
    }
  }

  /** A node and its sibling hash to their parent. */
  lemma ParentOf<B>(sha: (B, B) -> B, zero: B, leaves: seq<B>, level: nat, i: nat)
    ensures var node, other := Node(sha, zero, leaves, level, i), Node(sha, zero, leaves, level, Sibling(i));
            Node(sha, zero, leaves, level + 1, i / 2) == if i % 2 == 0 then sha(node, other) else sha(other, node)
  {
  }

  lemma FoldNothing<B>(sha: (B, B) -> B, node: B, i: nat)
    ensures Fold(sha, node, i, []) == node
  {
  }

  lemma FoldStep<B>(sha: (B, B) -> B, node: B, i: nat, branch: seq<B>)
    requires branch != []
    ensures Fold(sha, node, i, branch) ==
            Fold(sha, if i % 2 == 0 then sha(node, branch[0]) else sha(branch[0], node), i / 2, branch[1..])
  {
  }

  /** Folding the rest of a branch from level `from` up gives the node it leads to. */
  lemma {:induction false} FoldFrom<B>(sha: (B, B) -> B, zero: B, leaves: seq<B>, target: nat, depth: nat, from: nat)
    requires from <= depth
    ensures Fold(sha, Node(sha, zero, leaves, from, ShiftRight(target, from)), ShiftRight(target, from),
                 Branch(sha, zero, leaves, target, depth)[from..]) ==
            Node(sha, zero, leaves, depth, ShiftRight(target, depth))
    decreases depth - from
  {
    hide Node, Fold, Sibling;
    var rest := Branch(sha, zero, leaves, target, depth)[from..];
    var i := ShiftRight(target, from);
    if from < depth {
      assert rest[1..] == Branch(sha, zero, leaves, target, depth)[from + 1..];
      assert rest[0] == Node(sha, zero, leaves, from, Sibling(i));
      ParentOf(sha, zero, leaves, from, i);
      FoldStep(sha, Node(sha, zero, leaves, from, i), i, rest);
      FoldFrom(sha, zero, leaves, target, depth, from + 1);
    } else {
      assert rest == [];
      FoldNothing(sha, Node(sha, zero, leaves, from, i), i);
    }
  }

  // ---------------------------------------------------------------------------
  // The compact tree

  /** How many nodes of a level stand above a real leaf. */
  function Width(n: nat, level: nat): nat {
    if level == 0 then n else (Width(n, level - 1) + 1) / 2
  }

  /** The leaves divided by the leaves below a node, rounded up. */
  lemma {:induction false} WidthIsCeiling(n: nat, level: nat)
    ensures n <= Width(n, level) * Pow2(level) && (n > 0 ==> (Width(n, level) - 1) * Pow2(level) < n)
  {
    if level > 0 {
      WidthIsCeiling(n, level - 1);
      var w, p := Width(n, level - 1), Pow2(level - 1);
      HalfUp(w, p, n);
    }
  }

  lemma HalfUp(w: nat, p: nat, n: nat)
    requires n <= w * p && (n > 0 ==> (w - 1) * p < n)
    ensures n <= (w + 1) / 2 * (2 * p) && (n > 0 ==> ((w + 1) / 2 - 1) * (2 * p) < n)
  {
    var half := (w + 1) / 2;
    if w % 2 == 0 {
      assert w == 2 * half && half * (2 * p) == w * p && (half - 1) * (2 * p) == (w - 1) * p - p;
    } else {
      assert w == 2 * half - 1 && half * (2 * p) == w * p + p && (half - 1) * (2 * p) == (w - 1) * p;
    }
  }

  lemma {:induction false} NodeBeyond<B>(sha: (B, B) -> B, zero: B, leaves: seq<B>, level: nat, i: nat)
    requires i >= Width(|leaves|, level)
    ensures Node(sha, zero, leaves, level, i) == Zero(sha, zero, level)
  {
    if level > 0 {
      NodeBeyond(sha, zero, leaves, level - 1, 2 * i);
      NodeBeyond(sha, zero, leaves, level - 1, 2 * i + 1);
    }
  }

  lemma {:induction false} IndexInWidth(target: nat, n: nat, level: nat)
    requires target < n
    ensures ShiftRight(target, level) < Width(n, level)
  {
    if level > 0 {
      IndexInWidth(target, n, level - 1);
    }
  }

  lemma {:induction false} NarrowStays(n: nat, low: nat, high: nat)
    requires low <= high && Width(n, low) == 1
    ensures Width(n, high) == 1
  {
    if low < high {
      NarrowStays(n, low, high - 1);
    }
  }

  /** The levels of the compact tree: all nodes above real leaves, up to the first level with a single node. */
  ghost predicate Compact<B>(sha: (B, B) -> B, zero: B, leaves: seq<B>, depth: nat, levels: seq<seq<B>>) {
    && 1 <= |levels| <= depth + 1
    && (forall l :: 0 <= l < |levels| ==>
          && |levels[l]| == Width(|leaves|, l)
          && forall i :: 0 <= i < |levels[l]| ==> levels[l][i] == Node(sha, zero, leaves, l, i))
    && (|levels| == depth + 1 || |levels[|levels| - 1]| == 1)
  }

  /** An empty list of leaves counts as a single zero leaf. */
  function AtLeastOne<B>(leaves: seq<B>, zero: B): seq<B> {
    if leaves == [] then [zero] else leaves
  }

  lemma {:induction false} SameTree<B>(sha: (B, B) -> B, zero: B, leaves: seq<B>, level: nat, i: nat)
    ensures Node(sha, zero, AtLeastOne(leaves, zero), level, i) == Node(sha, zero, leaves, level, i)
  {
    if level > 0 {
      SameTree(sha, zero, leaves, level - 1, 2 * i);
      SameTree(sha, zero, leaves, level - 1, 2 * i + 1);
    }
  }

  lemma ZeroAbove<B>(sha: (B, B) -> B, zero: B, k: nat)
    ensures Zero(sha, zero, k + 1) == sha(Zero(sha, zero, k), Zero(sha, zero, k))
  {
  }

  /** The hashes of the all-zero subtrees of heights up to `depth`. */
  method ZeroSubtrees<B(0)>(sha: (B, B) -> B, zero: B, depth: nat) returns (hashes: array<B>)
    ensures hashes.Length == depth + 1 && fresh(hashes)
    ensures forall k :: 0 <= k <= depth ==> hashes[k] == Zero(sha, zero, k)
  {
    hashes := new B[depth + 1](_ => zero);
    assert hashes[0] == Zero(sha, zero, 0);
    hide Zero;
    for level := 0 to depth
      invariant forall k :: 0 <= k <= level ==> hashes[k] == Zero(sha, zero, k)
    {
      ZeroAbove(sha, zero, level);
      hashes[level + 1] := sha(hashes[level], hashes[level]);
    }
  }

  ghost predicate IsLevel<B>(sha: (B, B) -> B, zero: B, leaves: seq<B>, level: nat, nodes: seq<B>) {
    |nodes| == Width(|leaves|, level) && forall i :: 0 <= i < |nodes| ==> nodes[i] == Node(sha, zero, leaves, level, i)
  }

  method FromLeaves<B>(sha: (B, B) -> B, zeros: seq<B>, leaves: seq<B>, depth: nat) returns (levels: seq<seq<B>>)
    requires |zeros| == depth + 1 && forall k :: 0 <= k <= depth ==> zeros[k] == Zero(sha, zeros[0], k)
    ensures Compact(sha, zeros[0], AtLeastOne(leaves, zeros[0]), depth, levels)
  {
    ghost var given := AtLeastOne(leaves, zeros[0]);
    levels := [if leaves == [] then [zeros[0]] else leaves];
    for level := 0 to depth
      invariant |levels| == level + 1
      invariant forall l :: 0 <= l < |levels| ==> IsLevel(sha, zeros[0], given, l, levels[l])
    {
      if |levels[level]| == 1 {
        break;
      }
      var next := Parents(sha, zeros[0], zeros[level], levels[level], level, given);
      levels := levels + [next];
    }
  }

  /** The level above `prev`; `pad` is the zero subtree beside it. */
  method Parents<B>(sha: (B, B) -> B, ghost zero: B, pad: B, prev: seq<B>, ghost level: nat, ghost leaves: seq<B>)
    returns (next: seq<B>)
    requires IsLevel(sha, zero, leaves, level, prev) && pad == Zero(sha, zero, level)
    ensures IsLevel(sha, zero, leaves, level + 1, next)
  {
    next := [];
    for i := 0 to (|prev| + 1) / 2
      invariant |next| == i
      invariant forall j :: 0 <= j < i ==> next[j] == Node(sha, zero, leaves, level + 1, j)
    {
      var l := if 2 * i < |prev| then prev[2 * i] else pad;
      var r := if 2 * i + 1 < |prev| then prev[2 * i + 1] else pad;
      if 2 * i + 1 >= |prev| {
        NodeBeyond(sha, zero, leaves, level, 2 * i + 1);
      }
      next := next + [sha(l, r)];
    }
  }

  /** The branch that the compact tree gives. */
  method Proof<B>(zeros: seq<B>, levels: seq<seq<B>>, target: nat, depth: nat) returns (branch: seq<B>)
    requires |zeros| == depth + 1
    ensures branch == CompactBranch(zeros, levels, target, depth)
  {
    branch := [];
    for level := 0 to depth
      invariant branch == CompactBranch(zeros, levels, target, level)
    {
      if level >= |levels| || |levels[level]| == 1 {
        branch := branch + [zeros[level]];
      } else {
        var sibling := Sibling(ShiftRight(target, level));
        branch := branch + [if sibling < |levels[level]| then levels[level][sibling] else zeros[level]];
      }
    }
  }

  ghost function CompactBranch<B>(zeros: seq<B>, levels: seq<seq<B>>, target: nat, depth: nat): seq<B>
    requires depth <= |zeros|
  {
    seq(depth, l requires 0 <= l < depth =>
      var sibling := Sibling(ShiftRight(target, l));
      if l < |levels| && |levels[l]| != 1 && sibling < |levels[l]| then levels[l][sibling] else zeros[l])
  }

  /** The levels at which the compact tree forgets a real sibling: its single node there is beside the path. */
  ghost predicate Forgotten(n: nat, target: nat, level: nat) {
    Width(n, level) == 1 && ShiftRight(target, level) == 1
  }

  /** The compact branch is the padded tree's branch exactly when no forgotten sibling differs from zero. */
  lemma CompactBranchExact<B>(sha: (B, B) -> B, zeros: seq<B>, leaves: seq<B>, levels: seq<seq<B>>, target: nat,
                              depth: nat)
    requires |zeros| == depth + 1 && forall k :: 0 <= k <= depth ==> zeros[k] == Zero(sha, zeros[0], k)
    requires leaves != [] && Compact(sha, zeros[0], leaves, depth, levels)
    ensures CompactBranch(zeros, levels, target, depth) == Branch(sha, zeros[0], leaves, target, depth) <==>
            forall l :: 0 <= l < depth && Forgotten(|leaves|, target, l) ==>
              Node(sha, zeros[0], leaves, l, 0) == Zero(sha, zeros[0], l)
  {
    var c, b := CompactBranch(zeros, levels, target, depth), Branch(sha, zeros[0], leaves, target, depth);
    forall l | 0 <= l < depth
      ensures Forgotten(|leaves|, target, l) ==>
                c[l] == Zero(sha, zeros[0], l) && b[l] == Node(sha, zeros[0], leaves, l, 0)
      ensures !Forgotten(|leaves|, target, l) ==> c[l] == b[l]
    {
      LevelExact(sha, zeros, leaves, levels, target, depth, l);
    }
    if c == b {
      forall l | 0 <= l < depth && Forgotten(|leaves|, target, l)
        ensures Node(sha, zeros[0], leaves, l, 0) == Zero(sha, zeros[0], l)
      {
        assert c[l] == b[l];
      }
    }
  }

  lemma LevelExact<B>(sha: (B, B) -> B, zeros: seq<B>, leaves: seq<B>, levels: seq<seq<B>>, target: nat, depth: nat,
                      l: nat)
    requires |zeros| == depth + 1 && forall k :: 0 <= k <= depth ==> zeros[k] == Zero(sha, zeros[0], k)
    requires leaves != [] && Compact(sha, zeros[0], leaves, depth, levels) && l < depth
    ensures var c, b := CompactBranch(zeros, levels, target, depth)[l], Branch(sha, zeros[0], leaves, target, depth)[l];
            && (Forgotten(|leaves|, target, l) ==>
                c == Zero(sha, zeros[0], l) && b == Node(sha, zeros[0], leaves, l, 0))
            && (!Forgotten(|leaves|, target, l) ==> c == b)
  {
    hide Node, Zero;
    var sibling := Sibling(ShiftRight(target, l));
    if l >= |levels| {
      NarrowStays(|leaves|, |levels| - 1, l);
    }
    if sibling >= Width(|leaves|, l) {
      NodeBeyond(sha, zeros[0], leaves, l, sibling);
    }
  }

  /** Below the real leaves nothing is forgotten. */
  lemma NothingForgotten(n: nat, target: nat, l: nat)
    requires target < n
    ensures !Forgotten(n, target, l)
  {
    IndexInWidth(target, n, l);
  }

  // ---------------------------------------------------------------------------
  // The full-width reference

  function Halve<B>(sha: (B, B) -> B, level: seq<B>): seq<B> {
    seq(|level| / 2, i requires 0 <= i < |level| / 2 => sha(level[2 * i], level[2 * i + 1]))
  }

  /** The root of a full level of `2^depth` nodes. */
  function Merkleize<B>(sha: (B, B) -> B, level: seq<B>, depth: nat): B
    requires |level| == Pow2(depth)
    decreases depth
  {
    if depth == 0 then level[0] else Merkleize(sha, Halve(sha, level), depth - 1)
  }

  function Padded<B>(leaves: seq<B>, zero: B, width: nat): seq<B> {
    seq(width, i requires i >= 0 => if i < |leaves| then leaves[i] else zero)
  }

  ghost function FullLevel<B>(sha: (B, B) -> B, zero: B, leaves: seq<B>, level: nat, height: nat): seq<B> {
    seq(Pow2(height), i requires i >= 0 => Node(sha, zero, leaves, level, i))
  }

  lemma HalveLevel<B>(sha: (B, B) -> B, zero: B, leaves: seq<B>, level: nat, height: nat)
    requires height > 0
    ensures Halve(sha, FullLevel(sha, zero, leaves, level, height)) ==
              FullLevel(sha, zero, leaves, level + 1, height - 1)
  {
    var half := Pow2(height - 1);
    assert Pow2(height) == 2 * half;
    hide Pow2, Halve, FullLevel, Node;
    FullLevelNodes(sha, zero, leaves, level, height);
    FullLevelNodes(sha, zero, leaves, level + 1, height - 1);
    var below := FullLevel(sha, zero, leaves, level, height);
    HalveNodes(sha, below, half);
    forall i | 0 <= i < half
      ensures Halve(sha, below)[i] == Node(sha, zero, leaves, level + 1, i)
    {
      NodeAbove(sha, zero, leaves, level, i);
    }
  }

  lemma HalveNodes<B>(sha: (B, B) -> B, level: seq<B>, half: nat)
    requires |level| == 2 * half
    ensures |Halve(sha, level)| == half
    ensures forall i :: 0 <= i < half ==> Halve(sha, level)[i] == sha(level[2 * i], level[2 * i + 1])
  {
  }

  lemma NodeAbove<B>(sha: (B, B) -> B, zero: B, leaves: seq<B>, level: nat, i: nat)
    ensures Node(sha, zero, leaves, level + 1, i) ==
            sha(Node(sha, zero, leaves, level, 2 * i), Node(sha, zero, leaves, level, 2 * i + 1))
  {
  }

  lemma FullLevelNodes<B>(sha: (B, B) -> B, zero: B, leaves: seq<B>, level: nat, height: nat)
    ensures |FullLevel(sha, zero, leaves, level, height)| == Pow2(height)
    ensures forall i :: 0 <= i < Pow2(height) ==>
              FullLevel(sha, zero, leaves, level, height)[i] == Node(sha, zero, leaves, level, i)
    ensures height == 0 ==> FullLevel(sha, zero, leaves, level, height) == [Node(sha, zero, leaves, level, 0)]
  {
  }

  lemma {:induction false} MerkleizeLevel<B>(sha: (B, B) -> B, zero: B, leaves: seq<B>, level: nat, height: nat)
    ensures Merkleize(sha, FullLevel(sha, zero, leaves, level, height), height) ==
            Node(sha, zero, leaves, level + height, 0)
    decreases height
  {
    hide Node, Pow2, Halve;
    FullLevelNodes(sha, zero, leaves, level, height);
    if height > 0 {
      HalveLevel(sha, zero, leaves, level, height);
      MerkleizeLevel(sha, zero, leaves, level + 1, height - 1);
    }
  }

  /** The merkleization of the padded leaves. */
  function Root<B>(sha: (B, B) -> B, zero: B, leaves: seq<B>, depth: nat): B {
    Merkleize(sha, Padded(leaves, zero, Pow2(depth)), depth)
  }

  lemma PaddedIsLevel<B>(sha: (B, B) -> B, zero: B, leaves: seq<B>, depth: nat)
    ensures Padded(leaves, zero, Pow2(depth)) == FullLevel(sha, zero, leaves, 0, depth)
  {
  }

  lemma RootIsNode<B>(sha: (B, B) -> B, zero: B, leaves: seq<B>, depth: nat)
    ensures Root(sha, zero, leaves, depth) == Node(sha, zero, leaves, depth, 0)
  {
    hide Merkleize, Pow2;
    PaddedIsLevel(sha, zero, leaves, depth);
    MerkleizeLevel(sha, zero, leaves, 0, depth);
  }

  /** Three leaves in a tree of depth two: the nodes pair up from the left, and a branch goes from the bottom up. */
  lemma ThreeLeaves<B>(sha: (B, B) -> B, zero: B, a: B, b: B, c: B)
    ensures Root(sha, zero, [a, b, c], 2) == sha(sha(a, b), sha(c, zero))
    ensures Branch(sha, zero, [a, b, c], 1, 2) == [a, sha(c, zero)]
    ensures Fold(sha, b, 1, [a, sha(c, zero)]) == sha(sha(a, b), sha(c, zero))
  {
    var leaves := [a, b, c];
    RootIsNode(sha, zero, leaves, 2);
    assert Node(sha, zero, leaves, 1, 0) == sha(a, b) && Node(sha, zero, leaves, 1, 1) == sha(c, zero);
    assert ShiftRight(1, 1) == 0 && Sibling(0) == 1 && Sibling(1) == 0;
    var up := sha(a, b);
    assert [a, sha(c, zero)][1..] == [sha(c, zero)];
    assert Fold(sha, up, 0, [sha(c, zero)]) == Fold(sha, sha(up, sha(c, zero)), 0, []);
  }

  lemma SiblingOfHalves(i: nat, half: nat)
    requires i < 2 * half
    ensures Sibling(i) < 2 * half && i / 2 < half && (2 * half) % 2 == 0
  {
  }

  lemma SiblingBelow(i: nat, height: nat)
    requires height > 0 && i < Pow2(height)
    ensures Sibling(i) < Pow2(height) && i / 2 < Pow2(height - 1) && Pow2(height) % 2 == 0
  {
    hide Sibling;
    assert Pow2(height) == 2 * Pow2(height - 1);
    SiblingOfHalves(i, Pow2(height - 1));
  }

  lemma BranchEmpty<B>(sha: (B, B) -> B, zero: B, leaves: seq<B>, target: nat)
    ensures Branch(sha, zero, leaves, target, 0) == []
  {
  }

  lemma BranchStep<B>(sha: (B, B) -> B, zero: B, leaves: seq<B>, target: nat, depth: nat)
    ensures Branch(sha, zero, leaves, target, depth + 1) ==
            Branch(sha, zero, leaves, target, depth)
              + [Node(sha, zero, leaves, depth, Sibling(ShiftRight(target, depth)))]
  {
    hide Node, ShiftRight, Sibling;
  }

  /** The branch computed on the whole padded tree, level by level. */
  method VanillaProof<B>(sha: (B, B) -> B, zero: B, leaves: seq<B>, target: nat, depth: nat) returns (branch: seq<B>)
    requires target < Pow2(depth)
    ensures branch == Branch(sha, zero, leaves, target, depth)
  {
    hide Node, Pow2, Halve, Padded, FullLevel, Branch, Sibling;
    assert Branch(sha, zero, leaves, target, 0) == [] by { BranchEmpty(sha, zero, leaves, target); }
    var current := Pad(leaves, zero, Pow2(depth));
    PaddedIsLevel(sha, zero, leaves, depth);
    branch := [];
    var index := target;
    for level := 0 to depth
      invariant current == FullLevel(sha, zero, leaves, level, depth - level)
      invariant index == ShiftRight(target, level) && index < Pow2(depth - level)
      invariant branch == Branch(sha, zero, leaves, target, level)
    {
      SiblingBelow(index, depth - level);
      FullLevelNodes(sha, zero, leaves, level, depth - level);
      BranchStep(sha, zero, leaves, target, level);
      branch := branch + [current[Sibling(index)]];
      HalveLevel(sha, zero, leaves, level, depth - level);
      current := HalveLoop(sha, current);
      index := index / 2;
    }
  }

  method Pad<B>(leaves: seq<B>, zero: B, width: nat) returns (level: seq<B>)
    ensures level == Padded(leaves, zero, width)
  {
    level := [];
    for i := 0 to width
      invariant level == Padded(leaves, zero, i)
    {
      level := level + [if i < |leaves| then leaves[i] else zero];
    }
  }

  method HalveLoop<B>(sha: (B, B) -> B, level: seq<B>) returns (next: seq<B>)
    requires |level| % 2 == 0
    ensures next == Halve(sha, level)
  {
    next := [];
    var i := 0;
    while i < |level|
      invariant 0 <= i <= |level| && i % 2 == 0
      invariant next == Halve(sha, level[..i])
    {
      next := next + [sha(level[i], level[i + 1])];
      assert level[..i + 2][..i] == level[..i];
      i := i + 2;
    }
    assert level[..|level|] == level;
  }

  // ---------------------------------------------------------------------------
  // The main result

  /** For a target among the leaves the compact tree gives the full tree's branch, and the branch leads
      from the leaf to the full tree's root. */
  lemma CompactProofIsFullProof<B>(sha: (B, B) -> B, zeros: seq<B>, leaves: seq<B>, levels: seq<seq<B>>, target: nat,
                                   depth: nat)
    requires |zeros| == depth + 1 && forall k :: 0 <= k <= depth ==> zeros[k] == Zero(sha, zeros[0], k)
    requires Compact(sha, zeros[0], AtLeastOne(leaves, zeros[0]), depth, levels)
    requires |leaves| <= Pow2(depth) && target < |AtLeastOne(leaves, zeros[0])|
    ensures CompactBranch(zeros, levels, target, depth) == Branch(sha, zeros[0], leaves, target, depth)
    ensures Fold(sha, AtLeastOne(leaves, zeros[0])[target], target, CompactBranch(zeros, levels, target, depth)) ==
            Root(sha, zeros[0], leaves, depth)
  {
    hide Node, Zero, Pow2, Compact, Root, CompactBranch, Fold;
    var given := AtLeastOne(leaves, zeros[0]);
    PowerIsPositive(depth);
    forall l: nat
      ensures !Forgotten(|given|, target, l)
    {
      NothingForgotten(|given|, target, l);
    }
    CompactBranchExact(sha, zeros, given, levels, target, depth);
    BranchOfGiven(sha, zeros[0], leaves, target, depth);
    FoldFrom(sha, zeros[0], given, target, depth, 0);
    LeafNode(sha, zeros[0], given, target);
    assert Branch(sha, zeros[0], given, target, depth)[0..] == Branch(sha, zeros[0], given, target, depth);
    ShiftOut(target, depth);
    SameTree(sha, zeros[0], leaves, depth, 0);
    RootIsNode(sha, zeros[0], leaves, depth);
  }

  lemma LeafNode<B>(sha: (B, B) -> B, zero: B, leaves: seq<B>, i: nat)
    requires i < |leaves|
    ensures Node(sha, zero, leaves, 0, i) == leaves[i] && ShiftRight(i, 0) == i
  {
  }

  lemma {:induction false} PowerIsPositive(n: nat)
    ensures Pow2(n) >= 1
  {
    if n > 0 {
      PowerIsPositive(n - 1);
    }
  }

  lemma BranchOfGiven<B>(sha: (B, B) -> B, zero: B, leaves: seq<B>, target: nat, depth: nat)
    ensures Branch(sha, zero, AtLeastOne(leaves, zero), target, depth) == Branch(sha, zero, leaves, target, depth)
  {
    forall l: nat
      ensures Node(sha, zero, AtLeastOne(leaves, zero), l, Sibling(ShiftRight(target, l))) ==
              Node(sha, zero, leaves, l, Sibling(ShiftRight(target, l)))
    {
      SameTree(sha, zero, leaves, l, Sibling(ShiftRight(target, l)));
    }
  }

  /** A target beyond the leaves can get a branch that is not the padded tree's. */
  lemma TargetBeyondLeaves()
    ensures var sha := (a: int, b: int) => 2 * a + 3 * b + 1;
            var zeros := [0, 1, 6];
            && (forall k :: 0 <= k <= 2 ==> zeros[k] == Zero(sha, 0, k))
            && Compact(sha, 0, [7], 2, [[7]])
            && CompactBranch(zeros, [[7]], 2, 2) != Branch(sha, 0, [7], 2, 2)
  {
    var sha := (a: int, b: int) => 2 * a + 3 * b + 1;
    assert Node(sha, 0, [7], 0, 0) == 7;
    assert Node(sha, 0, [7], 1, 0) == sha(7, 0);
    assert ShiftRight(2, 1) == 1;
    assert Branch(sha, 0, [7], 2, 2)[1] == 15;
    assert CompactBranch([0, 1, 6], [[7]], 2, 2)[1] == 1;
  }

  // ---------------------------------------------------------------------------
  // The proof of the placeholder transaction

  /** The shared cache of leaf roots, by transaction hash. */
  class LeafCache<H(==), B> {
    var roots: map<H, B>

    constructor ()
      ensures roots == map[]
    {
      roots := map[];
    }
  }

  /** Every cached root is the leaf root of the transactions with that hash. */
  ghost predicate CacheOk<T(!new), H, B>(roots: map<H, B>, hash: T -> H, leafRoot: T -> B) {
    forall t :: hash(t) in roots ==> roots[hash(t)] == leafRoot(t)
  }

  /** The proof of the last transaction; none when there is no transaction. */
  method PlaceholderProof<T(!new), H(==), B>(sha: (B, B) -> B, zeros: seq<B>, depth: nat, hash: T -> H,
                                             leafRoot: T -> B, txs: seq<T>, cache: LeafCache<H, B>)
    returns (proof: Option<seq<B>>)
    requires |zeros| == depth + 1 && forall k :: 0 <= k <= depth ==> zeros[k] == Zero(sha, zeros[0], k)
    requires forall t, u :: hash(t) == hash(u) ==> leafRoot(t) == leafRoot(u)
    requires CacheOk(cache.roots, hash, leafRoot) && |txs| <= Pow2(depth)
    modifies cache
    ensures CacheOk(cache.roots, hash, leafRoot)
    ensures cache.roots.Keys == old(cache.roots.Keys) + (set i | 0 <= i < |txs| :: hash(txs[i]))
    ensures proof.None? <==> txs == []
    ensures txs != [] ==>
              var leaves := seq(|txs|, i requires 0 <= i < |txs| => leafRoot(txs[i]));
              Fold(sha, leafRoot(txs[|txs| - 1]), |txs| - 1, proof.value) == Root(sha, zeros[0], leaves, depth)
  {
    hide CacheOk, Root, Fold, Zero;
    var leaves := LeafRoots(hash, leafRoot, txs, cache);
    if txs == [] {
      return None;
    }
    var levels := FromLeaves(sha, zeros, leaves, depth);
    var branch := Proof(zeros, levels, |txs| - 1, depth);
    CompactProofIsFullProof(sha, zeros, leaves, levels, |txs| - 1, depth);
    return Some(branch);
  }

  /** The leaf roots of the transactions, from the cache where it has them. */
  method LeafRoots<T(!new), H(==), B>(hash: T -> H, leafRoot: T -> B, txs: seq<T>, cache: LeafCache<H, B>)
    returns (leaves: seq<B>)
    requires forall t, u :: hash(t) == hash(u) ==> leafRoot(t) == leafRoot(u)
    requires CacheOk(cache.roots, hash, leafRoot)
    modifies cache
    ensures leaves == seq(|txs|, i requires 0 <= i < |txs| => leafRoot(txs[i]))
    ensures CacheOk(cache.roots, hash, leafRoot)
    ensures cache.roots.Keys == old(cache.roots.Keys) + (set i | 0 <= i < |txs| :: hash(txs[i]))
  {
    leaves := [];
    for i := 0 to |txs|
      invariant |leaves| == i && forall j :: 0 <= j < i ==> leaves[j] == leafRoot(txs[j])
      invariant CacheOk(cache.roots, hash, leafRoot)
      invariant cache.roots.Keys == old(cache.roots.Keys) + (set j | 0 <= j < i :: hash(txs[j]))
    {
      var h := hash(txs[i]);
      if h !in cache.roots {
        cache.roots := cache.roots[h := leafRoot(txs[i])];
      }
      leaves := leaves + [cache.roots[h]];
    }
  }
}
