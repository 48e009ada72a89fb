/**
  The in-memory trie with the hashes it keeps: a node that was hashed carries the pointer its parent refers
  to it by until an operation walks over it. For any sequence of operations the root hash computed with kept
  pointers is the one that hashing everything anew would give.
 */
module HashedTries {
  import opened Wrappers
  import opened SparseTrie

  /** A node of the sparse trie; `kept` is its pointer while it counts as hashed. */
  datatype Node =
    | NoNode
    | LeafNode(key: Nibbles, value: nat, kept: Option<Bytes>)
    | ExtensionNode(key: Nibbles, next: Node, kept: Option<Bytes>)
    | BranchNode(children: seq<Node>, kept: Option<Bytes>)
    | RemoteNode(full: Full)

  /** The node without its hashes. */
  function Erase(n: Node): Sparse {
    match n
    case NoNode => Nil
    case LeafNode(key, value, _) => Tip(key, value)
    case ExtensionNode(key, next, _) => Path(key, Erase(next))
    case BranchNode(children, _) => Fork(seq(|children|, i requires 0 <= i < |children| => Erase(children[i])))
    case RemoteNode(full) => Remote(full)
  }

  function EraseAll(children: seq<Node>): seq<Sparse> {
    seq(|children|, i requires 0 <= i < |children| => Erase(children[i]))
  }

  lemma EraseBranch(children: seq<Node>, kept: Option<Bytes>)
    ensures Erase(BranchNode(children, kept)) == Fork(EraseAll(children))
  {
    assert Erase(BranchNode(children, kept)).children == EraseAll(children);
  }

  lemma EraseUpdate(children: seq<Node>, i: nat, n: Node)
    requires i < |children|
    ensures EraseAll(children[i := n]) == EraseAll(children)[i := Erase(n)]
  {
  }

  // ---------------------------------------------------------------------------
  // What kept pointers promise

  /** A parent can refer to the node without hashing it. */
  predicate Ready(n: Node) {
    n.NoNode? || n.RemoteNode? || n.kept.Some?
  }

  ghost predicate IsPointer(h: Hashing, kept: Option<Bytes>, s: Sparse, values: seq<Bytes>)
    requires Stored(s, |values|)
  {
    kept.Some? ==> kept.value == h.Pointer(SparseRlp(h, s, values))
  }

  /** A kept pointer is that of the contents, and below a hashed node everything is hashed. */
  ghost predicate Kept(h: Hashing, n: Node, values: seq<Bytes>)
    requires Stored(Erase(n), |values|)
  {
    match n
    case LeafNode(_, _, kept) => IsPointer(h, kept, Erase(n), values)
    case ExtensionNode(_, next, kept) =>
      IsPointer(h, kept, Erase(n), values) && Kept(h, next, values) && (kept.Some? ==> Ready(next))
    case BranchNode(children, kept) =>
      && IsPointer(h, kept, Erase(n), values)
      && (forall i :: 0 <= i < |children| ==> Stored(Erase(children[i]), |values|) && Kept(h, children[i], values))
      && (kept.Some? ==> forall i :: 0 <= i < |children| ==> Ready(children[i]))
    case _ => true
  }

  ghost predicate Trusted(h: Hashing, n: Node, values: seq<Bytes>) {
    Stored(Erase(n), |values|) && Kept(h, n, values)
  }

  ghost predicate AllTrusted(h: Hashing, nodes: seq<Node>, values: seq<Bytes>) {
    forall i :: 0 <= i < |nodes| ==> Trusted(h, nodes[i], values)
  }

  lemma KeptBranch(h: Hashing, children: seq<Node>, values: seq<Bytes>)
    requires AllTrusted(h, children, values)
    ensures Trusted(h, BranchNode(children, None), values)
  {
    EraseBranch(children, None);
    assert forall i :: 0 <= i < |children| ==> EraseAll(children)[i] == Erase(children[i]);
  }

  // ---------------------------------------------------------------------------
  // Hashing

  /** How a parent refers to the node; that of a remote node came with its proof. */
  function PointerOf(h: Hashing, n: Node): Bytes
    requires Ready(n)
  {
    match n
    case NoNode => h.Pointer([EMPTY_STRING_CODE])
    case RemoteNode(full) => h.Pointer(FullRlp(h, full))
    case _ => n.kept.value
  }

  predicate ChildrenReady(n: Node) {
    match n
    case ExtensionNode(_, next, _) => Ready(next)
    case BranchNode(children, _) => forall i :: 0 <= i < |children| ==> Ready(children[i])
    case RemoteNode(_) => false
    case _ => true
  }

  /** The encoding of a node from the pointers of its children. */
  function EncodeNode(h: Hashing, n: Node, values: seq<Bytes>): Bytes
    requires Stored(Erase(n), |values|) && ChildrenReady(n)
  {
    match n
    case NoNode => [EMPTY_STRING_CODE]
    case LeafNode(key, value, _) => h.leaf(key, values[value])
    case ExtensionNode(key, next, _) => h.extension(key, PointerOf(h, next))
    case BranchNode(children, _) => h.branch(ChildPointers(h, children))
  }

  function ChildPointers(h: Hashing, children: seq<Node>): seq<Option<Bytes>>
    requires forall i :: 0 <= i < |children| ==> Ready(children[i])
  {
    seq(|children|, i requires 0 <= i < |children| =>
      if children[i].NoNode? then None else Some(PointerOf(h, children[i])))
  }

  /** Hashes a node, children first; what counts as hashed is not visited. */
  function HashNode(h: Hashing, n: Node, values: seq<Bytes>): (r: Node)
    requires Stored(Erase(n), |values|)
    ensures Ready(r) && Erase(r) == Erase(n)
    decreases n, 1
  {
    if Ready(n) then n else
    match n
    case LeafNode(key, value, _) => LeafNode(key, value, Some(h.Pointer(EncodeNode(h, n, values))))
    case ExtensionNode(key, next, _) =>
      var hashed := HashNode(h, next, values);
      ExtensionNode(key, hashed, Some(h.Pointer(EncodeNode(h, ExtensionNode(key, hashed, None), values))))
    case BranchNode(children, _) =>
      StoredChildren(children, n.kept, |values|);
      var hashed := HashAll(h, children, values);
      assert EraseAll(hashed) == EraseAll(children);
      EraseBranch(hashed, None);
      EraseBranch(children, None);
      BranchNode(hashed, Some(h.Pointer(EncodeNode(h, BranchNode(hashed, None), values))))
  }

  function HashAll(h: Hashing, nodes: seq<Node>, values: seq<Bytes>): (r: seq<Node>)
    requires forall i :: 0 <= i < |nodes| ==> Stored(Erase(nodes[i]), |values|)
    ensures |r| == |nodes| && forall i :: 0 <= i < |nodes| ==> Ready(r[i]) && Erase(r[i]) == Erase(nodes[i])
    decreases nodes, 0
  {
    if nodes == [] then [] else [HashNode(h, nodes[0], values)] + HashAll(h, nodes[1..], values)
  }

  lemma StoredChildren(children: seq<Node>, kept: Option<Bytes>, n: nat)
    ensures Stored(Erase(BranchNode(children, kept)), n) <==>
              forall i :: 0 <= i < |children| ==> Stored(Erase(children[i]), n)
  {
    EraseBranch(children, kept);
    assert forall i :: 0 <= i < |children| ==> EraseAll(children)[i] == Erase(children[i]);
  }

  /** With pointers that can be trusted, the encoding is that of the node without them. */
  lemma EncodeIsRlp(h: Hashing, n: Node, values: seq<Bytes>)
    requires Stored(Erase(n), |values|) && ChildrenReady(n) && Kept(h, n, values)
    ensures EncodeNode(h, n, values) == SparseRlp(h, Erase(n), values)
  {
    match n
    case BranchNode(children, _) =>
      var erased := Erase(n).children;
      var plain := seq(|erased|, i requires 0 <= i < |erased| =>
                       if erased[i].Nil? then None else Some(h.Pointer(SparseRlp(h, erased[i], values))));
      assert ChildPointers(h, children) == plain;
    case _ =>
  }

  lemma {:induction false} HashKeeps(h: Hashing, n: Node, values: seq<Bytes>)
    requires Stored(Erase(n), |values|) && Kept(h, n, values)
    ensures Kept(h, HashNode(h, n, values), values)
    decreases n, 1
  {
    if !Ready(n) {
      match n
      case LeafNode(_, _, _) =>
      case ExtensionNode(key, next, _) =>
        HashKeeps(h, next, values);
        EncodeIsRlp(h, ExtensionNode(key, HashNode(h, next, values), None), values);
      case BranchNode(children, _) =>
        HashAllKeeps(h, children, values);
        HashBranchKeeps(h, HashAll(h, children, values), values);
    }
  }

  /** A branch hashed from hashed children. */
  lemma HashBranchKeeps(h: Hashing, children: seq<Node>, values: seq<Bytes>)
    requires AllTrusted(h, children, values) && forall i :: 0 <= i < |children| ==> Ready(children[i])
    ensures Stored(Erase(BranchNode(children, None)), |values|)
    ensures var kept := Some(h.Pointer(EncodeNode(h, BranchNode(children, None), values)));
            Trusted(h, BranchNode(children, kept), values)
  {
    KeptBranch(h, children, values);
    EncodeIsRlp(h, BranchNode(children, None), values);
    var kept := Some(h.Pointer(EncodeNode(h, BranchNode(children, None), values)));
    EraseBranch(children, None);
    EraseBranch(children, kept);
  }

  lemma {:induction false} HashAllKeeps(h: Hashing, nodes: seq<Node>, values: seq<Bytes>)
    requires AllTrusted(h, nodes, values)
    ensures AllTrusted(h, HashAll(h, nodes, values), values)
    decreases nodes, 0
  {
    if nodes != [] {
      HashKeeps(h, nodes[0], values);
      HashAllKeeps(h, nodes[1..], values);
      assert HashAll(h, nodes, values) == [HashNode(h, nodes[0], values)] + HashAll(h, nodes[1..], values);
    }
  }

  // ---------------------------------------------------------------------------
  // Insertion

  /** Puts nibbles in front of a node; the node they end up in is not hashed any more. */
  function UnderNode(key: Nibbles, n: Node): Node {
    if key == [] then n else
    match n
    case LeafNode(rest, value, _) => LeafNode(key + rest, value, None)
    case ExtensionNode(rest, next, _) => ExtensionNode(key + rest, next, None)
    case _ => ExtensionNode(key, n, None)
  }

  function TwoNodes(i1: nat, n1: Node, i2: nat, n2: Node): seq<Node> {
    seq(16, i => if i == i1 then n1 else if i == i2 then n2 else NoNode)
  }

  function SplitNode(k1: Nibbles, n1: Node, k2: Nibbles, n2: Node): Node
    requires CommonPrefix(k1, k2) < |k1| && CommonPrefix(k1, k2) < |k2|
  {
    var p := CommonPrefix(k1, k2);
    UnderNode(k1[..p], BranchNode(TwoNodes(k1[p], UnderNode(k1[p + 1..], n1), k2[p], UnderNode(k2[p + 1..], n2)), None))
  }

  lemma EraseUnder(key: Nibbles, n: Node)
    ensures Erase(UnderNode(key, n)) == Under(key, Erase(n))
  {
  }

  lemma EraseSplit(k1: Nibbles, n1: Node, k2: Nibbles, n2: Node)
    requires CommonPrefix(k1, k2) < |k1| && CommonPrefix(k1, k2) < |k2|
    ensures Erase(SplitNode(k1, n1, k2, n2)) == SplitAt(k1, Erase(n1), k2, Erase(n2))
  {
    var p := CommonPrefix(k1, k2);
    var u1, u2 := UnderNode(k1[p + 1..], n1), UnderNode(k2[p + 1..], n2);
    var children := TwoNodes(k1[p], u1, k2[p], u2);
    EraseUnder(k1[p + 1..], n1);
    EraseUnder(k2[p + 1..], n2);
    EraseBranch(children, None);
    assert EraseAll(children) == TwoChildren(k1[p], Erase(u1), k2[p], Erase(u2));
    EraseUnder(k1[..p], BranchNode(children, None));
  }

  ghost predicate Walkable(n: Node, len: nat) {
    n.NoNode? || Sound(Erase(n), len)
  }

  lemma WalkableChildren(children: seq<Node>, kept: Option<Bytes>, len: nat)
    requires Walkable(BranchNode(children, kept), len)
    ensures |children| == 16 && len > 0 && forall i :: 0 <= i < |children| ==> Walkable(children[i], len - 1)
  {
    EraseBranch(children, kept);
    assert forall i :: 0 <= i < |children| ==> EraseAll(children)[i] == Erase(children[i]);
  }

  /** Inserts, walking from the root; every node walked over counts as not hashed, also when a node is missing. */
  function InsertNode(n: Node, k: Nibbles, value: nat): (Node, InsertOutcome)
    requires IsPath(k, |k|) && Walkable(n, |k|)
  {
    match n
    case RemoteNode(_) => (n, InsertNotFound(k))
    case NoNode => (LeafNode(k, value, None), InsertOk(None))
    case LeafNode(key, was, _) =>
      if key == k then (LeafNode(key, value, None), InsertOk(Some(was)))
      else (SplitNode(k, LeafNode([], value, None), key, LeafNode([], was, None)), InsertOk(None))
    case ExtensionNode(key, next, _) =>
      if key <= k then
        var (next', r) := InsertNode(next, k[|key|..], value);
        (ExtensionNode(key, next', None), if r.InsertNotFound? then InsertNotFound(k) else r)
      else (SplitNode(k, LeafNode([], value, None), key, next), InsertOk(None))
    case BranchNode(children, kept) =>
      WalkableChildren(children, kept, |k|);
      var (child, r) := InsertNode(children[k[0]], k[1..], value);
      (BranchNode(children[k[0] := child], None), if r.InsertNotFound? then InsertNotFound(k) else r)
  }

  ghost predicate InsertAgrees(n: Node, k: Nibbles, value: nat)
    requires IsPath(k, |k|) && Walkable(n, |k|)
  {
    var (n', r) := InsertNode(n, k, value);
    match Insert(Erase(n), k, value)
    case Done(s, was) => Erase(n') == s && r == InsertOk(was)
    case Missing(path) => Erase(n') == Erase(n) && r == InsertNotFound(path)
  }

  /** Without the hashes it is the insertion of the sparse trie. */
  lemma {:induction false} InsertErases(n: Node, k: Nibbles, value: nat)
    requires IsPath(k, |k|) && Walkable(n, |k|)
    ensures InsertAgrees(n, k, value)
  {
    match n
    case LeafNode(key, was, _) =>
      if key != k {
        EraseSplit(k, LeafNode([], value, None), key, LeafNode([], was, None));
      }
    case ExtensionNode(key, next, _) =>
      if key <= k {
        InsertErases(next, k[|key|..], value);
      } else {
        EraseSplit(k, LeafNode([], value, None), key, next);
      }
    case BranchNode(children, _) =>
      WalkableChildren(children, n.kept, |k|);
      InsertErases(children[k[0]], k[1..], value);
      var (child, r) := InsertNode(children[k[0]], k[1..], value);
      EraseBranch(children, n.kept);
      EraseBranch(children[k[0] := child], None);
      EraseUpdate(children, k[0], child);
    case _ =>
  }

  lemma UnderKept(h: Hashing, key: Nibbles, n: Node, values: seq<Bytes>)
    requires Trusted(h, n, values)
    ensures Trusted(h, UnderNode(key, n), values)
  {
  }

  lemma SplitKept(h: Hashing, k1: Nibbles, n1: Node, k2: Nibbles, n2: Node, values: seq<Bytes>)
    requires CommonPrefix(k1, k2) < |k1| && CommonPrefix(k1, k2) < |k2|
    requires Trusted(h, n1, values) && Trusted(h, n2, values)
    ensures Trusted(h, SplitNode(k1, n1, k2, n2), values)
  {
    var p := CommonPrefix(k1, k2);
    UnderKept(h, k1[p + 1..], n1, values);
    UnderKept(h, k2[p + 1..], n2, values);
    var children := TwoNodes(k1[p], UnderNode(k1[p + 1..], n1), k2[p], UnderNode(k2[p + 1..], n2));
    KeptBranch(h, children, values);
    UnderKept(h, k1[..p], BranchNode(children, None), values);
  }

  lemma UpdateKept(h: Hashing, children: seq<Node>, i: nat, n: Node, values: seq<Bytes>)
    requires i < |children| && AllTrusted(h, children, values) && Trusted(h, n, values)
    ensures Trusted(h, BranchNode(children[i := n], None), values)
  {
    KeptBranch(h, children[i := n], values);
  }

  lemma {:induction false} InsertKept(h: Hashing, n: Node, k: Nibbles, value: nat, values: seq<Bytes>)
    requires IsPath(k, |k|) && Walkable(n, |k|) && value < |values|
    requires Trusted(h, n, values)
    ensures Trusted(h, InsertNode(n, k, value).0, values)
  {
    hide SparseRlp;
    match n
    case LeafNode(key, was, _) =>
      if key != k {
        SplitKept(h, k, LeafNode([], value, None), key, LeafNode([], was, None), values);
      }
    case ExtensionNode(key, next, _) =>
      if key <= k {
        InsertKept(h, next, k[|key|..], value, values);
      } else {
        SplitKept(h, k, LeafNode([], value, None), key, next, values);
      }
    case BranchNode(children, _) =>
      WalkableChildren(children, n.kept, |k|);
      InsertKept(h, children[k[0]], k[1..], value, values);
      UpdateKept(h, children, k[0], InsertNode(children[k[0]], k[1..], value).0, values);
    case _ =>
  }

  // ---------------------------------------------------------------------------
  // Deletion

  /** A branch without its child `i`; an orphan moves up and, if its key changed, is not hashed any more. */
  function WithoutNode(children: seq<Node>, i: nat): Node
    requires i < |children|
  {
    var o := Other(EraseAll(children), i, 0);
    if |Used(EraseAll(children))| == 2 && o < |children| then UnderNode([o], children[o])
    else BranchNode(children[i := NoNode], None)
  }

  /** Deleting below a branch, given what becomes of the child that the path leads to. */
  function AtBranch(children: seq<Node>, k: Nibbles, child: Node, r: DeleteOutcome): (Node, DeleteOutcome)
    requires |children| == 16 && |k| > 0 && k[0] < 16
  {
    var i := k[0];
    var o := Other(EraseAll(children), i, 0);
    if children[i].NoNode? then (BranchNode(children, None), KeyNotFound)
    else if children[i].RemoteNode? then (BranchNode(children, None), DeleteNotFound(k))
    else if |Used(EraseAll(children))| == 2 && o < |children| && children[o].RemoteNode? then
      (BranchNode(children, None), DeleteNotFound([o]))
    else
      match r
      case KeyNotFound => (BranchNode(children[i := child], None), KeyNotFound)
      case DeleteNotFound(path) => (BranchNode(children[i := child], None), DeleteNotFound([i] + path))
      case DeleteOk(_) => (if child.NoNode? then WithoutNode(children, i)
                           else BranchNode(children[i := child], None), r)
  }

  /** Deletes, walking from the root; every node walked over counts as not hashed, also when nothing is deleted. */
  function DeleteNode(n: Node, k: Nibbles): (Node, DeleteOutcome)
    requires IsPath(k, |k|) && Walkable(n, |k|)
  {
    match n
    case RemoteNode(_) => (n, DeleteNotFound(k))
    case NoNode => (n, KeyNotFound)
    case LeafNode(key, value, _) =>
      if key == k then (NoNode, DeleteOk(value)) else (LeafNode(key, value, None), KeyNotFound)
    case ExtensionNode(key, next, _) =>
      if !(key <= k) then (ExtensionNode(key, next, None), KeyNotFound)
      else
        var (next', r) := DeleteNode(next, k[|key|..]);
        (match r
         case KeyNotFound => (ExtensionNode(key, next', None), r)
         case DeleteNotFound(path) => (ExtensionNode(key, next', None), DeleteNotFound(key + path))
         case DeleteOk(_) => (UnderNode(key, next'), r))
    case BranchNode(children, kept) =>
      WalkableChildren(children, kept, |k|);
      var (child, r) := DeleteNode(children[k[0]], k[1..]);
      AtBranch(children, k, child, r)
  }

  ghost predicate DeleteAgrees(s: Sparse, d: Deleted, n: Node, r: DeleteOutcome) {
    match d
    case Removed(t, value) => Erase(n) == t && r == DeleteOk(value)
    case NoKey => Erase(n) == s && r == KeyNotFound
    case Absent(path) => Erase(n) == s && r == DeleteNotFound(path)
  }

  lemma EraseWithout(children: seq<Node>, i: nat)
    requires i < |children|
    ensures Erase(WithoutNode(children, i)) == Without(EraseAll(children), i)
  {
    var o := Other(EraseAll(children), i, 0);
    if |Used(EraseAll(children))| == 2 && o < |children| {
      EraseUnder([o], children[o]);
    } else {
      EraseUpdate(children, i, NoNode);
      EraseBranch(children[i := NoNode], None);
    }
  }

  lemma AtBranchErases(children: seq<Node>, k: Nibbles, child: Node, r: DeleteOutcome, d: Deleted)
    requires |children| == 16 && |k| > 0 && k[0] < 16
    requires DeleteAgrees(EraseAll(children)[k[0]], d, child, r)
    ensures var (n, r') := AtBranch(children, k, child, r);
            DeleteAgrees(Fork(EraseAll(children)), AtFork(EraseAll(children), k, d), n, r')
  {
    EraseBranch(children, None);
    EraseBranch(children[k[0] := child], None);
    EraseUpdate(children, k[0], child);
    EraseWithout(children, k[0]);
    assert EraseAll(children)[k[0] := EraseAll(children)[k[0]]] == EraseAll(children);
  }

  /** Without the hashes it is the deletion of the sparse trie. */
  lemma {:induction false} DeleteErases(n: Node, k: Nibbles)
    requires IsPath(k, |k|) && Walkable(n, |k|)
    ensures DeleteAgrees(Erase(n), Delete(Erase(n), k), DeleteNode(n, k).0, DeleteNode(n, k).1)
  {
    match n
    case ExtensionNode(key, next, _) =>
      if key <= k {
        DeleteErases(next, k[|key|..]);
        EraseUnder(key, DeleteNode(next, k[|key|..]).0);
      }
    case BranchNode(children, kept) =>
      WalkableChildren(children, kept, |k|);
      DeleteErases(children[k[0]], k[1..]);
      EraseBranch(children, kept);
      var (child, r) := DeleteNode(children[k[0]], k[1..]);
      AtBranchErases(children, k, child, r, Delete(EraseAll(children)[k[0]], k[1..]));
    case _ =>
  }

  lemma AtBranchKept(h: Hashing, children: seq<Node>, k: Nibbles, child: Node, r: DeleteOutcome, values: seq<Bytes>)
    requires |children| == 16 && |k| > 0 && k[0] < 16
    requires AllTrusted(h, children, values) && Trusted(h, child, values)
    ensures Trusted(h, AtBranch(children, k, child, r).0, values)
  {
    hide Trusted;
    KeptBranch(h, children, values);
    UpdateKept(h, children, k[0], child, values);
    NothingKept(h, values);
    UpdateKept(h, children, k[0], NoNode, values);
    var o := Other(EraseAll(children), k[0], 0);
    if o < |children| {
      UnderKept(h, [o], children[o], values);
    }
  }

  lemma NothingKept(h: Hashing, values: seq<Bytes>)
    ensures Trusted(h, NoNode, values)
  {
  }

  lemma {:induction false} DeleteKept(h: Hashing, n: Node, k: Nibbles, values: seq<Bytes>)
    requires IsPath(k, |k|) && Walkable(n, |k|) && Trusted(h, n, values)
    ensures Trusted(h, DeleteNode(n, k).0, values)
  {
    hide SparseRlp;
    match n
    case ExtensionNode(key, next, _) =>
      if key <= k {
        DeleteKept(h, next, k[|key|..], values);
        UnderKept(h, key, DeleteNode(next, k[|key|..]).0, values);
      }
    case BranchNode(children, kept) =>
      WalkableChildren(children, kept, |k|);
      DeleteKept(h, children[k[0]], k[1..], values);
      var (child, r) := DeleteNode(children[k[0]], k[1..]);
      AtBranchKept(h, children, k, child, r, values);
    case _ =>
  }

  // ---------------------------------------------------------------------------
  // Loading

  /** A node none of which is hashed. */
  function Fresh(s: Sparse): (n: Node)
    ensures Erase(n) == s
  {
    match s
    case Nil => NoNode
    case Tip(key, value) => LeafNode(key, value, None)
    case Path(key, next) => ExtensionNode(key, Fresh(next), None)
    case Fork(children) =>
      var nodes := seq(|children|, i requires 0 <= i < |children| => Fresh(children[i]));
      EraseBranch(nodes, None);
      assert EraseAll(nodes) == children;
      BranchNode(nodes, None)
    case Remote(full) => RemoteNode(full)
  }

  /** Loads the nodes on a path; every node walked over counts as not hashed. */
  function RevealNode(n: Node, path: Nibbles, count: nat): (Node, seq<Bytes>) {
    match n
    case RemoteNode(full) => var (s, more) := Load(full, path, count); (Fresh(s), more)
    case ExtensionNode(key, next, _) =>
      if key <= path then
        var (next', more) := RevealNode(next, path[|key|..], count);
        (ExtensionNode(key, next', None), more)
      else (ExtensionNode(key, next, None), [])
    case BranchNode(children, _) =>
      if |path| > 0 && path[0] < |children| then
        var (child, more) := RevealNode(children[path[0]], path[1..], count);
        (BranchNode(children[path[0] := child], None), more)
      else (BranchNode(children, None), [])
    case LeafNode(key, value, _) => (LeafNode(key, value, None), [])
    case NoNode => (n, [])
  }

  /** Without the hashes it is the loading of the sparse trie. */
  lemma {:induction false} RevealErases(n: Node, path: Nibbles, count: nat)
    ensures Erase(RevealNode(n, path, count).0) == Reveal(Erase(n), path, count).0
    ensures RevealNode(n, path, count).1 == Reveal(Erase(n), path, count).1
  {
    match n
    case ExtensionNode(key, next, _) =>
      if key <= path {
        RevealErases(next, path[|key|..], count);
      }
    case BranchNode(children, kept) =>
      EraseBranch(children, kept);
      EraseBranch(children, None);
      if |path| > 0 && path[0] < |children| {
        RevealErases(children[path[0]], path[1..], count);
        var child := RevealNode(children[path[0]], path[1..], count).0;
        EraseUpdate(children, path[0], child);
        EraseBranch(children[path[0] := child], None);
      }
    case _ =>
  }

  lemma {:induction false} FreshKept(h: Hashing, s: Sparse, values: seq<Bytes>)
    requires Stored(s, |values|)
    ensures Trusted(h, Fresh(s), values)
  {
    match s
    case Path(_, next) => FreshKept(h, next, values);
    case Fork(children) =>
      forall i | 0 <= i < |children|
        ensures Trusted(h, Fresh(children[i]), values)
      {
        FreshKept(h, children[i], values);
      }
    case _ =>
  }

  lemma {:induction false} RlpExtend(h: Hashing, s: Sparse, values: seq<Bytes>, more: seq<Bytes>)
    requires Stored(s, |values|) && values <= more
    ensures Stored(s, |more|) && SparseRlp(h, s, more) == SparseRlp(h, s, values)
  {
    match s
    case Path(_, next) => RlpExtend(h, next, values, more);
    case Fork(children) =>
      forall i | 0 <= i < |children|
        ensures Stored(children[i], |more|) && SparseRlp(h, children[i], more) == SparseRlp(h, children[i], values)
      {
        RlpExtend(h, children[i], values, more);
      }
      var a := seq(|children|, i requires 0 <= i < |children| =>
                   if children[i].Nil? then None else Some(h.Pointer(SparseRlp(h, children[i], values))));
      var b := seq(|children|, i requires 0 <= i < |children| =>
                   if children[i].Nil? then None else Some(h.Pointer(SparseRlp(h, children[i], more))));
      assert a == b;
      assert SparseRlp(h, s, values) == h.branch(a) && SparseRlp(h, s, more) == h.branch(b);
    case _ =>
  }

  /** Storing more values does not spoil a kept pointer. */
  lemma {:induction false} KeptExtend(h: Hashing, n: Node, values: seq<Bytes>, more: seq<Bytes>)
    requires Trusted(h, n, values) && values <= more
    ensures Trusted(h, n, more)
  {
    RlpExtend(h, Erase(n), values, more);
    match n
    case ExtensionNode(_, next, _) => KeptExtend(h, next, values, more);
    case BranchNode(children, _) =>
      forall i | 0 <= i < |children|
        ensures Trusted(h, children[i], more)
      {
        KeptExtend(h, children[i], values, more);
      }
    case _ =>
  }

  lemma {:induction false} RevealKept(h: Hashing, n: Node, path: Nibbles, values: seq<Bytes>)
    requires Trusted(h, n, values)
    ensures Trusted(h, RevealNode(n, path, |values|).0, values + RevealNode(n, path, |values|).1)
  {
    var (n', more) := RevealNode(n, path, |values|);
    KeptExtend(h, n, values, values + more);
    match n
    case RemoteNode(full) =>
      LoadKeepsTrie(full, path, values);
      FreshKept(h, Load(full, path, |values|).0, values + more);
    case ExtensionNode(key, next, _) =>
      if key <= path {
        RevealKept(h, next, path[|key|..], values);
      }
    case BranchNode(children, _) =>
      if |path| > 0 && path[0] < |children| {
        RevealKept(h, children[path[0]], path[1..], values);
        UpdateKept(h, children, path[0], RevealNode(children[path[0]], path[1..], |values|).0, values + more);
      } else {
        KeptBranch(h, children, values + more);
      }
    case _ =>
  }

  /** An insertion that misses a node leaves no use of the value behind. */
  lemma {:induction false} MissedInsertKept(h: Hashing, n: Node, k: Nibbles, value: nat, values: seq<Bytes>)
    requires IsPath(k, |k|) && Walkable(n, |k|) && Trusted(h, n, values)
    ensures InsertNode(n, k, value).1.InsertNotFound? ==> Trusted(h, InsertNode(n, k, value).0, values)
  {
    hide SparseRlp;
    match n
    case ExtensionNode(key, next, _) =>
      if key <= k {
        MissedInsertKept(h, next, k[|key|..], value, values);
      }
    case BranchNode(children, kept) =>
      WalkableChildren(children, kept, |k|);
      MissedInsertKept(h, children[k[0]], k[1..], value, values);
      var (child, r) := InsertNode(children[k[0]], k[1..], value);
      if r.InsertNotFound? {
        UpdateKept(h, children, k[0], child, values);
      }
    case _ =>
  }

  // ---------------------------------------------------------------------------
  // The trie as its callers see it

  /** A trie that keeps hashes. Each operation agrees with that of the trie without them. */
  datatype HashedTrie = HashedTrie(root: Node, values: seq<Bytes>) {
    /** The trie without its hashes. */
    function Plain(): Trie {
      Trie(Erase(root), values)
    }

    ghost predicate Valid(h: Hashing) {
      Plain().Valid() && Trusted(h, root, values)
    }

    predicate IsUninit() {
      root.RemoteNode?
    }

    lemma RootWalkable(h: Hashing)
      requires Valid(h) && !IsUninit()
      ensures Walkable(root, KEY_NIBBLES)
    {
    }

    /** Inserts a value that is already stored. */
    function InsertStored(ghost h: Hashing, k: Nibbles, value: nat): (r: (HashedTrie, InsertOutcome))
      requires Valid(h) && IsPath(k, KEY_NIBBLES) && value < |values|
      ensures r.0.Valid(h) && (r.0.Plain(), r.1) == Plain().InsertStored(k, value)
    {
      if IsUninit() then (this, InsertNotFound(k))
      else
        RootWalkable(h);
        StoredInsertAgrees(h, this, k, value);
        var (root', o) := InsertNode(root, k, value);
        (HashedTrie(root', values), o)
    }

    /** Inserts a new value, storing it only when the path is loaded. */
    function InsertValue(ghost h: Hashing, k: Nibbles, bytes: Bytes): (r: (HashedTrie, InsertOutcome))
      requires Valid(h) && IsPath(k, KEY_NIBBLES)
      ensures r.0.Valid(h) && (r.0.Plain(), r.1) == Plain().InsertValue(k, bytes)
    {
      if IsUninit() then (this, InsertNotFound(k))
      else
        RootWalkable(h);
        ValueInsertAgrees(h, this, k, bytes);
        var (root', o) := InsertNode(root, k, |values|);
        (HashedTrie(root', if o.InsertOk? then values + [bytes] else values), o)
    }

    function DeleteKey(ghost h: Hashing, k: Nibbles): (r: (HashedTrie, DeleteOutcome))
      requires Valid(h) && IsPath(k, KEY_NIBBLES)
      ensures r.0.Valid(h) && (r.0.Plain(), r.1) == Plain().DeleteKey(k)
    {
      if IsUninit() then (this, DeleteNotFound(k))
      else
        RootWalkable(h);
        DeletionAgrees(h, this, k);
        var (root', o) := DeleteNode(root, k);
        (HashedTrie(root', values), o)
    }

    /** Loads the proof of a path. */
    function AddProof(ghost h: Hashing, path: Nibbles): (r: HashedTrie)
      requires Valid(h)
      ensures r.Valid(h) && r.Plain() == Plain().AddProof(path)
    {
      LoadingAgrees(h, this, path);
      var (root', more) := RevealNode(root, path, |values|);
      HashedTrie(root', values + more)
    }

    /** The root hash, and the trie that keeps all hashes computed for it. */
    function RootHash(h: Hashing): (r: (HashedTrie, Bytes))
      requires Valid(h) && !IsUninit()
      ensures r.0.Valid(h) && r.0.Plain() == Plain() && r.1 == Plain().RootHash(h)
    {
      HashingAgrees(h, this);
      var root' := HashNode(h, root, values);
      (HashedTrie(root', values), h.keccak(EncodeNode(h, root', values)))
    }
  }

  lemma StoredInsertAgrees(h: Hashing, t: HashedTrie, k: Nibbles, value: nat)
    requires t.Valid(h) && Walkable(t.root, KEY_NIBBLES) && IsPath(k, KEY_NIBBLES) && value < |t.values|
    ensures var (root, o) := InsertNode(t.root, k, value);
            && HashedTrie(root, t.values).Valid(h)
            && (Trie(Erase(root), t.values), o) == t.Plain().InsertStored(k, value)
  {
    InsertErases(t.root, k, value);
    InsertKept(h, t.root, k, value, t.values);
    var (root, o) := InsertNode(t.root, k, value);
    var p := t.Plain().InsertStored(k, value);
    assert (Trie(Erase(root), t.values), o) == p;
    assert p.0.Valid();
  }

  lemma ValueInsertAgrees(h: Hashing, t: HashedTrie, k: Nibbles, bytes: Bytes)
    requires t.Valid(h) && Walkable(t.root, KEY_NIBBLES) && IsPath(k, KEY_NIBBLES)
    ensures var (root, o) := InsertNode(t.root, k, |t.values|);
            var values := if o.InsertOk? then t.values + [bytes] else t.values;
            HashedTrie(root, values).Valid(h) && (Trie(Erase(root), values), o) == t.Plain().InsertValue(k, bytes)
  {
    InsertErases(t.root, k, |t.values|);
    KeptExtend(h, t.root, t.values, t.values + [bytes]);
    InsertKept(h, t.root, k, |t.values|, t.values + [bytes]);
    MissedInsertKept(h, t.root, k, |t.values|, t.values);
    var (root, o) := InsertNode(t.root, k, |t.values|);
    var values := if o.InsertOk? then t.values + [bytes] else t.values;
    var p := t.Plain().InsertValue(k, bytes);
    assert (Trie(Erase(root), values), o) == p;
    assert p.0.Valid();
  }

  lemma DeletionAgrees(h: Hashing, t: HashedTrie, k: Nibbles)
    requires t.Valid(h) && Walkable(t.root, KEY_NIBBLES) && IsPath(k, KEY_NIBBLES)
    ensures var (root, o) := DeleteNode(t.root, k);
            HashedTrie(root, t.values).Valid(h) && (Trie(Erase(root), t.values), o) == t.Plain().DeleteKey(k)
  {
    DeleteErases(t.root, k);
    DeleteKept(h, t.root, k, t.values);
    var (root, o) := DeleteNode(t.root, k);
    var p := t.Plain().DeleteKey(k);
    assert (Trie(Erase(root), t.values), o) == p;
    assert p.0.Valid();
  }

  lemma LoadingAgrees(h: Hashing, t: HashedTrie, path: Nibbles)
    requires t.Valid(h)
    ensures var (root, more) := RevealNode(t.root, path, |t.values|);
            HashedTrie(root, t.values + more).Valid(h) && Trie(Erase(root), t.values + more) == t.Plain().AddProof(path)
  {
    RevealErases(t.root, path, |t.values|);
    RevealKept(h, t.root, path, t.values);
    var (root, more) := RevealNode(t.root, path, |t.values|);
    var p := t.Plain().AddProof(path);
    assert Trie(Erase(root), t.values + more) == p;
    assert p.Valid();
  }

  lemma HashingAgrees(h: Hashing, t: HashedTrie)
    requires t.Valid(h) && !t.IsUninit()
    ensures var root := HashNode(h, t.root, t.values);
            && HashedTrie(root, t.values).Valid(h) && Erase(root) == Erase(t.root) && ChildrenReady(root)
            && h.keccak(EncodeNode(h, root, t.values)) == t.Plain().RootHash(h)
  {
    HashKeeps(h, t.root, t.values);
    var root := HashNode(h, t.root, t.values);
    assert ChildrenReady(root);
    EncodeIsRlp(h, root, t.values);
  }

  // ---------------------------------------------------------------------------
  // Any sequence of operations

  datatype Op =
    | InsertStoredOp(key: Nibbles, value: nat)
    | InsertOp(key: Nibbles, bytes: Bytes)
    | DeleteOp(key: Nibbles)
    | AddProofOp(path: Nibbles)
    | HashOp

  datatype Reply =
    | InsertReply(inserted: InsertOutcome)
    | DeleteReply(deleted: DeleteOutcome)
    | Added
    | HashReply(root: Option<Bytes>)

  /** The keys are those of accounts or slots, and handles were given out before. */
  ghost predicate Allowed(values: seq<Bytes>, op: Op) {
    match op
    case InsertStoredOp(k, value) => IsPath(k, KEY_NIBBLES) && value < |values|
    case InsertOp(k, _) => IsPath(k, KEY_NIBBLES)
    case DeleteOp(k) => IsPath(k, KEY_NIBBLES)
    case _ => true
  }

  /** An operation on the trie that keeps hashes. */
  ghost function Step(h: Hashing, t: HashedTrie, op: Op): (HashedTrie, Reply)
    requires t.Valid(h) && Allowed(t.values, op)
  {
    match op
    case InsertStoredOp(k, value) => var (t', r) := t.InsertStored(h, k, value); (t', InsertReply(r))
    case InsertOp(k, bytes) => var (t', r) := t.InsertValue(h, k, bytes); (t', InsertReply(r))
    case DeleteOp(k) => var (t', r) := t.DeleteKey(h, k); (t', DeleteReply(r))
    case AddProofOp(path) => (t.AddProof(h, path), Added)
    case HashOp =>
      if t.IsUninit() then (t, HashReply(None))
      else var (t', root) := t.RootHash(h); (t', HashReply(Some(root)))
  }

  /** The same operation on the trie that hashes everything anew. */
  ghost function PlainStep(h: Hashing, t: Trie, op: Op): (Trie, Reply)
    requires t.Valid() && Allowed(t.values, op)
  {
    match op
    case InsertStoredOp(k, value) => var (t', r) := t.InsertStored(k, value); (t', InsertReply(r))
    case InsertOp(k, bytes) => var (t', r) := t.InsertValue(k, bytes); (t', InsertReply(r))
    case DeleteOp(k) => var (t', r) := t.DeleteKey(k); (t', DeleteReply(r))
    case AddProofOp(path) => (t.AddProof(path), Added)
    case HashOp => (t, HashReply(if t.IsUninit() then None else Some(t.RootHash(h))))
  }

  lemma StepAgrees(h: Hashing, t: HashedTrie, op: Op)
    requires t.Valid(h) && Allowed(t.values, op)
    ensures var (t', r) := Step(h, t, op);
            t'.Valid(h) && (t'.Plain(), r) == PlainStep(h, t.Plain(), op)
  {
    hide Trie.Valid, HashedTrie.Valid, Trie.InsertStored, Trie.InsertValue, Trie.DeleteKey, Trie.AddProof;
    hide HashedTrie.InsertStored, HashedTrie.InsertValue, HashedTrie.DeleteKey, HashedTrie.AddProof;
  }

  /** The replies to operations one after the other, up to the first that is not allowed. */
  ghost function Replies(h: Hashing, t: HashedTrie, ops: seq<Op>): seq<Reply>
    requires t.Valid(h)
    decreases |ops|
  {
    if ops == [] || !Allowed(t.values, ops[0]) then []
    else
      StepAgrees(h, t, ops[0]);
      var (t', r) := Step(h, t, ops[0]);
      [r] + Replies(h, t', ops[1..])
  }

  ghost function PlainReplies(h: Hashing, t: Trie, ops: seq<Op>): seq<Reply>
    requires t.Valid()
    decreases |ops|
  {
    if ops == [] || !Allowed(t.values, ops[0]) then []
    else
      var (t', r) := PlainStep(h, t, ops[0]);
      [r] + PlainReplies(h, t', ops[1..])
  }

  /** Keeping hashes shows in no reply, whatever the operations and whatever is loaded. */
  lemma {:induction false} KeptHashesInvisible(h: Hashing, t: HashedTrie, ops: seq<Op>)
    requires t.Valid(h)
    ensures Replies(h, t, ops) == PlainReplies(h, t.Plain(), ops)
    decreases |ops|
  {
    if ops != [] && Allowed(t.values, ops[0]) {
      StepAgrees(h, t, ops[0]);
      KeptHashesInvisible(h, Step(h, t, ops[0]).0, ops[1..]);
    }
  }
}
