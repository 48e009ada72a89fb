/**
  The conflict sets of a block's orders are the connected components of the graph whose
  edges are the conflicting pairs, whatever order the pairs are visited in.
 */
module ConflictSets {
  import opened Wrappers

  datatype Conflict =
    | NoConflict
    | Nonce(account: nat)
    | Fatal
    | DifferentProfit(profitAlone: nat, profitWithConflict: nat)

  type Pair<Id> = (Id, Id)

  // ---------------------------------------------------------------------------
  // Connected components

  ghost function Edges<Id>(conflicts: map<Pair<Id>, Conflict>): set<Pair<Id>> {
    set p | p in conflicts && conflicts[p] != NoConflict
  }

  ghost predicate Linked<Id>(edges: set<Pair<Id>>, a: Id, b: Id) {
    (a, b) in edges || (b, a) in edges
  }

  ghost predicate IsPath<Id>(edges: set<Pair<Id>>, a: Id, b: Id, path: seq<Id>) {
    && |path| > 0 && path[0] == a && path[|path| - 1] == b
    && forall i :: 0 <= i < |path| - 1 ==> Linked(edges, path[i], path[i + 1])
  }

  ghost predicate Connected<Id(!new)>(edges: set<Pair<Id>>, a: Id, b: Id) {
    exists path :: IsPath(edges, a, b, path)
  }

  ghost predicate Endpoint<Id(!new)>(edges: set<Pair<Id>>, a: Id) {
    exists b :: Linked(edges, a, b)
  }

  /** The components of the graph, each once. */
  ghost predicate AreComponents<Id(!new)>(edges: set<Pair<Id>>, components: multiset<set<Id>>) {
    && (forall c :: c in components ==> components[c] == 1 && c != {})
    && (forall a :: Endpoint(edges, a) <==> exists c :: c in components && a in c)
    && (forall c, a, b :: c in components && a in c ==> (b in c <==> Connected(edges, a, b)))
  }

  lemma SamePoint<Id(!new)>(edges: set<Pair<Id>>, a: Id)
    ensures Connected(edges, a, a)
  {
    assert IsPath(edges, a, a, [a]);
  }

  lemma EdgeConnects<Id(!new)>(edges: set<Pair<Id>>, a: Id, b: Id)
    requires Linked(edges, a, b)
    ensures Connected(edges, a, b)
  {
    assert IsPath(edges, a, b, [a, b]);
  }

  lemma Symmetric<Id(!new)>(edges: set<Pair<Id>>, a: Id, b: Id)
    requires Connected(edges, a, b)
    ensures Connected(edges, b, a)
  {
    var path :| IsPath(edges, a, b, path);
    var back := seq(|path|, i requires 0 <= i < |path| => path[|path| - 1 - i]);
    assert IsPath(edges, b, a, back);
  }

  lemma Transitive<Id(!new)>(edges: set<Pair<Id>>, a: Id, b: Id, c: Id)
    requires Connected(edges, a, b) && Connected(edges, b, c)
    ensures Connected(edges, a, c)
  {
    var p :| IsPath(edges, a, b, p);
    var q :| IsPath(edges, b, c, q);
    var path := p + q[1..];
    assert forall i :: |p| - 1 <= i < |path| ==> path[i] == q[i - |p| + 1];
    assert IsPath(edges, a, c, path);
  }

  lemma MoreEdges<Id(!new)>(edges: set<Pair<Id>>, more: set<Pair<Id>>, a: Id, b: Id)
    requires edges <= more && Connected(edges, a, b)
    ensures Connected(more, a, b)
  {
    var path :| IsPath(edges, a, b, path);
    assert IsPath(more, a, b, path);
  }

  /** The components are determined by the graph. */
  lemma ComponentsUnique<Id(!new)>(edges: set<Pair<Id>>, m: multiset<set<Id>>, n: multiset<set<Id>>)
    requires AreComponents(edges, m) && AreComponents(edges, n)
    ensures m == n
  {
    forall c
      ensures m[c] == n[c]
    {
      if c in m {
        SameComponent(edges, m, n, c);
      }
      if c in n {
        SameComponent(edges, n, m, c);
      }
    }
  }

  lemma SameComponent<Id(!new)>(edges: set<Pair<Id>>, m: multiset<set<Id>>, n: multiset<set<Id>>, c: set<Id>)
    requires AreComponents(edges, m) && AreComponents(edges, n) && c in m
    ensures c in n
  {
    var a :| a in c;
    assert Endpoint(edges, a);
    var d :| d in n && a in d;
    assert forall b :: b in c <==> b in d;
    assert c == d;
  }

  /** Different components do not overlap. */
  lemma ComponentsDisjoint<Id(!new)>(edges: set<Pair<Id>>, m: multiset<set<Id>>, c: set<Id>, d: set<Id>)
    requires AreComponents(edges, m) && c in m && d in m
    ensures c == d || c !! d
  {
  }

  // ---------------------------------------------------------------------------
  // The merging loop

  /** The two maps of the loop: each set by its number, and the number of each order's set. */
  datatype Partition<!Id> = Partition(sets: map<nat, set<Id>>, owner: map<Id, nat>, next: nat)

  ghost predicate Consistent<Id>(p: Partition<Id>) {
    && (forall k :: k in p.owner ==> p.owner[k] in p.sets && k in p.sets[p.owner[k]])
    && (forall i, k :: i in p.sets && k in p.sets[i] ==> k in p.owner && p.owner[k] == i)
    && (forall i :: i in p.sets ==> i < p.next && p.sets[i] != {})
  }

  /** The partition holds the components of the edges visited so far. */
  ghost predicate Holds<Id(!new)>(edges: set<Pair<Id>>, p: Partition<Id>) {
    && (forall a :: Endpoint(edges, a) <==> a in p.owner)
    && (forall a, b :: a in p.owner && b in p.owner && p.owner[a] == p.owner[b] ==> Connected(edges, a, b))
    && (forall a, b :: Linked(edges, a, b) ==> a in p.owner && b in p.owner && p.owner[a] == p.owner[b])
  }

  /** An order's set is its component. */
  lemma {:induction false} SameOwnerOnPath<Id(!new)>(edges: set<Pair<Id>>, p: Partition<Id>, a: Id, b: Id,
                                                     path: seq<Id>)
    requires Holds(edges, p) && IsPath(edges, a, b, path) && a in p.owner
    ensures b in p.owner && p.owner[a] == p.owner[b]
    decreases |path|
  {
    if |path| > 1 {
      assert Linked(edges, path[0], path[1]);
      SameOwnerOnPath(edges, p, path[1], b, path[1..]);
    }
  }

  lemma OwnerIsComponent<Id(!new)>(edges: set<Pair<Id>>, p: Partition<Id>, a: Id, b: Id)
    requires Holds(edges, p) && a in p.owner
    ensures Connected(edges, a, b) <==> b in p.owner && p.owner[a] == p.owner[b]
  {
    if path :| IsPath(edges, a, b, path) {
      SameOwnerOnPath(edges, p, a, b, path);
    }
  }

  /** Puts every order of set `from` into set `to`. */
  function Merge<Id(==)>(p: Partition<Id>, to: nat, from: nat): Partition<Id>
    requires to in p.sets && from in p.sets
  {
    Partition(
      p.sets[to := p.sets[to] + p.sets[from]] - {from},
      map k | k in p.owner :: if k in p.sets[from] then to else p.owner[k],
      p.next)
  }

  /** Puts the two orders into set `i`. */
  function Join<Id(==)>(p: Partition<Id>, i: nat, a: Id, b: Id): Partition<Id>
  {
    Partition(
      p.sets[i := (if i in p.sets then p.sets[i] else {}) + {a, b}],
      p.owner[a := i][b := i],
      if i < p.next then p.next else i + 1)
  }

  lemma MergeConsistent<Id>(p: Partition<Id>, to: nat, from: nat)
    requires Consistent(p) && to in p.sets && from in p.sets && to != from
    ensures Consistent(Merge(p, to, from))
  {
    var q := Merge(p, to, from);
    forall i, k | i in q.sets && k in q.sets[i]
      ensures k in q.owner && q.owner[k] == i
    {
      if i == to {
        assert k in p.sets[to] || k in p.sets[from];
      } else {
        assert k in p.sets[i];
      }
    }
  }

  lemma JoinConsistent<Id>(p: Partition<Id>, i: nat, a: Id, b: Id)
    requires Consistent(p) && (i in p.sets || i == p.next)
    requires a in p.owner ==> p.owner[a] == i
    requires b in p.owner ==> p.owner[b] == i
    ensures Consistent(Join(p, i, a, b))
  {
  }

  /** Among the orders that an edge between `x` and `y` brings together. */
  ghost predicate Touched<Id>(owner: map<Id, nat>, x: Id, y: Id, a: Id) {
    || a == x || a == y
    || (a in owner && x in owner && owner[a] == owner[x])
    || (a in owner && y in owner && owner[a] == owner[y])
  }

  /** `new` is `was` with the classes of `x` and `y` made one. */
  ghost predicate Joined<Id(!new)>(was: map<Id, nat>, now: map<Id, nat>, x: Id, y: Id) {
    && now.Keys == was.Keys + {x, y}
    && forall a, b :: a in now && b in now ==>
         (now[a] == now[b] <==>
          || (Touched(was, x, y, a) && Touched(was, x, y, b))
          || (a in was && b in was && was[a] == was[b]))
  }

  lemma MergeJoins<Id(!new)>(p: Partition<Id>, x: Id, y: Id)
    requires Consistent(p) && x in p.owner && y in p.owner && p.owner[x] != p.owner[y]
    ensures Joined(p.owner, Merge(p, p.owner[x], p.owner[y]).owner, x, y)
  {
  }

  lemma JoinJoins<Id(!new)>(p: Partition<Id>, i: nat, x: Id, y: Id)
    requires Consistent(p) && (i == p.next || (x in p.owner && i == p.owner[x]) || (y in p.owner && i == p.owner[y]))
    requires x in p.owner ==> p.owner[x] == i
    requires y in p.owner ==> p.owner[y] == i
    ensures Joined(p.owner, Join(p, i, x, y).owner, x, y)
  {
  }

  lemma TouchedConnects<Id(!new)>(edges: set<Pair<Id>>, p: Partition<Id>, x: Id, y: Id, a: Id)
    requires Holds(edges, p) && Touched(p.owner, x, y, a)
    ensures Connected(edges + {(x, y)}, a, x)
  {
    hide Connected;
    var more := edges + {(x, y)};
    SamePoint(more, x);
    EdgeConnects(more, y, x);
    if a in p.owner && x in p.owner && p.owner[a] == p.owner[x] {
      MoreEdges(edges, more, a, x);
    } else if a in p.owner && y in p.owner && p.owner[a] == p.owner[y] {
      MoreEdges(edges, more, a, y);
      Transitive(more, a, y, x);
    }
  }

  /** Visiting one more edge. */
  lemma AddEdge<Id(!new)>(edges: set<Pair<Id>>, p: Partition<Id>, q: Partition<Id>, x: Id, y: Id)
    requires Holds(edges, p) && Joined(p.owner, q.owner, x, y)
    ensures Holds(edges + {(x, y)}, q)
  {
    hide Connected, Endpoint;
    var more := edges + {(x, y)};
    forall a
      ensures Endpoint(more, a) <==> a in q.owner
    {
      AddEndpoint(edges, x, y, a);
    }
    forall a, b | a in q.owner && b in q.owner && q.owner[a] == q.owner[b]
      ensures Connected(more, a, b)
    {
      if Touched(p.owner, x, y, a) && Touched(p.owner, x, y, b) {
        TouchedConnects(edges, p, x, y, a);
        TouchedConnects(edges, p, x, y, b);
        Symmetric(more, b, x);
        Transitive(more, a, x, b);
      } else {
        MoreEdges(edges, more, a, b);
      }
    }
    forall a, b | Linked(more, a, b)
      ensures a in q.owner && b in q.owner && q.owner[a] == q.owner[b]
    {
      if Linked(edges, a, b) {
        assert a in p.owner && b in p.owner && p.owner[a] == p.owner[b];
      } else {
        assert Touched(p.owner, x, y, a) && Touched(p.owner, x, y, b);
      }
    }
  }

  lemma AddEndpoint<Id(!new)>(edges: set<Pair<Id>>, x: Id, y: Id, a: Id)
    ensures Endpoint(edges + {(x, y)}, a) <==> Endpoint(edges, a) || a == x || a == y
  {
    var more := edges + {(x, y)};
    assert Linked(more, x, y) && Linked(more, y, x);
    if b :| Linked(edges, a, b) {
      assert Linked(more, a, b);
    }
    if b :| Linked(more, a, b) {
      assert Linked(edges, a, b) || a == x || a == y;
    }
  }

  /** Moves the members of the second set into the first, one by one. */
  method MergeSets<Id(==)>(p: Partition<Id>, to: nat, from: nat) returns (q: Partition<Id>)
    requires Consistent(p) && to in p.sets && from in p.sets && to != from
    ensures q == Merge(p, to, from)
  {
    var set1, set2 := p.sets[to], p.sets[from];
    var sets, owner := p.sets - {to} - {from}, p.owner;
    var rest := set2;
    while rest != {}
      invariant rest <= set2 && set1 == p.sets[to] + (set2 - rest)
      invariant owner.Keys == p.owner.Keys
      invariant forall k :: k in owner ==> owner[k] == if k in set2 && k !in rest then to else p.owner[k]
    {
      var k :| k in rest;
      set1 := set1 + {k};
      owner := owner[k := to];
      rest := rest - {k};
    }
    assert set1 == p.sets[to] + p.sets[from];
    sets := sets[to := set1];
    assert sets == Merge(p, to, from).sets;
    assert owner == Merge(p, to, from).owner;
    q := Partition(sets, owner, p.next);
  }

  /** Visits one conflicting pair. */
  method Visit<Id(!new, ==)>(p: Partition<Id>, x: Id, y: Id, ghost edges: set<Pair<Id>>) returns (q: Partition<Id>)
    requires Consistent(p) && Holds(edges, p)
    ensures Consistent(q) && Holds(edges + {(x, y)}, q)
  {
    hide Holds;
    if x in p.owner && y in p.owner {
      if p.owner[x] == p.owner[y] {
        q := p;
      } else {
        MergeConsistent(p, p.owner[x], p.owner[y]);
        MergeJoins(p, x, y);
        q := MergeSets(p, p.owner[x], p.owner[y]);
      }
    } else {
      var i := if x in p.owner then p.owner[x] else if y in p.owner then p.owner[y] else p.next;
      JoinConsistent(p, i, x, y);
      JoinJoins(p, i, x, y);
      q := Join(p, i, x, y);
    }
    AddEdge(edges, p, q, x, y);
  }

  method GetConflictSets<Id(!new, ==)>(conflicts: map<Pair<Id>, Conflict>) returns (sets: seq<set<Id>>)
    ensures AreComponents((set p | p in conflicts && conflicts[p] != NoConflict), multiset(sets))
    ensures forall i, j :: 0 <= i < j < |sets| ==> |sets[i]| >= |sets[j]|
  {
    hide Holds, AreComponents;
    var p := Partition<Id>.Partition(map[], map[], 0);
    ghost var edges: set<Pair<Id>> := {};
    NoEdges<Id>();
    var rest := conflicts.Keys;
    while rest != {}
      invariant rest <= conflicts.Keys && Consistent(p) && Holds(edges, p)
      invariant edges == Edges(conflicts) - rest
    {
      var pair :| pair in rest;
      rest := rest - {pair};
      if conflicts[pair] != NoConflict {
        p := Visit(p, pair.0, pair.1, edges);
        edges := edges + {(pair.0, pair.1)};
      }
    }
    assert edges == Edges(conflicts);
    sets := Values(p);
    ValuesAreComponents(edges, p, sets);
    var sorted := SortBySize(sets);
    sets := seq(|sorted|, i requires 0 <= i < |sorted| => sorted[|sorted| - 1 - i]);
    ReverseKeeps(sorted);
  }

  lemma NoEdges<Id(!new)>()
    ensures Holds<Id>({}, Partition(map[], map[], 0))
  {
  }

  /** The sets of a partition, in any order. */
  method Values<Id(==)>(p: Partition<Id>) returns (sets: seq<set<Id>>)
    requires Consistent(p)
    ensures forall c :: c in multiset(sets) <==> exists i :: i in p.sets && p.sets[i] == c
    ensures forall c :: c in multiset(sets) ==> multiset(sets)[c] == 1
  {
    SetsDiffer(p);
    sets := [];
    var rest := p.sets.Keys;
    while rest != {}
      invariant rest <= p.sets.Keys
      invariant forall c :: c in multiset(sets) <==> exists i :: i in p.sets && i !in rest && p.sets[i] == c
      invariant forall c :: c in multiset(sets) ==> multiset(sets)[c] == 1
    {
      var i :| i in rest;
      sets := sets + [p.sets[i]];
      rest := rest - {i};
    }
  }

  lemma SetsDiffer<Id>(p: Partition<Id>)
    requires Consistent(p)
    ensures forall i, j :: i in p.sets && j in p.sets && i != j ==> p.sets[i] != p.sets[j]
  {
    forall i, j | i in p.sets && j in p.sets && i != j
      ensures p.sets[i] != p.sets[j]
    {
      var k :| k in p.sets[i];
      assert k in p.owner && p.owner[k] == i;
    }
  }

  lemma ValuesAreComponents<Id(!new)>(edges: set<Pair<Id>>, p: Partition<Id>, sets: seq<set<Id>>)
    requires Consistent(p) && Holds(edges, p)
    requires forall c :: c in multiset(sets) <==> exists i :: i in p.sets && p.sets[i] == c
    requires forall c :: c in multiset(sets) ==> multiset(sets)[c] == 1
    ensures AreComponents(edges, multiset(sets))
  {
    hide Connected, Endpoint;
    forall a
      ensures a in p.owner <==> exists c :: c in multiset(sets) && a in c
    {
      if a in p.owner {
        assert p.sets[p.owner[a]] in multiset(sets);
      }
    }
    forall c, a, b | c in multiset(sets) && a in c
      ensures b in c <==> Connected(edges, a, b)
    {
      var i :| i in p.sets && p.sets[i] == c;
      OwnerIsComponent(edges, p, a, b);
    }
  }

  /** Sorts by size, smallest first. */
  method SortBySize<Id(==)>(sets: seq<set<Id>>) returns (sorted: seq<set<Id>>)
    ensures multiset(sorted) == multiset(sets)
    ensures Ascending(sorted)
  {
    sorted := [];
    for n := 0 to |sets|
      invariant multiset(sorted) == multiset(sets[..n]) && Ascending(sorted)
    {
      var i := |sorted|;
      while i > 0 && |sorted[i - 1]| > |sets[n]|
        invariant 0 <= i <= |sorted|
        invariant forall j :: i <= j < |sorted| ==> |sorted[j]| > |sets[n]|
      {
        i := i - 1;
      }
      InsertedAt(sorted, i, sets[n]);
      InsertedOne(sorted, i, sets[n]);
      sorted := sorted[..i] + [sets[n]] + sorted[i..];
      assert sets[..n + 1] == sets[..n] + [sets[n]];
    }
    assert sets[..|sets|] == sets;
  }

  ghost predicate Ascending<Id>(sets: seq<set<Id>>) {
    forall i, j :: 0 <= i < j < |sets| ==> |sets[i]| <= |sets[j]|
  }

  lemma InsertedAt<Id>(sorted: seq<set<Id>>, i: nat, c: set<Id>)
    requires i <= |sorted| && Ascending(sorted)
    requires i > 0 ==> |sorted[i - 1]| <= |c|
    requires forall j :: i <= j < |sorted| ==> |sorted[j]| > |c|
    ensures Ascending(sorted[..i] + [c] + sorted[i..])
  {
  }

  lemma InsertedOne<Id>(sorted: seq<set<Id>>, i: nat, c: set<Id>)
    requires i <= |sorted|
    ensures multiset(sorted[..i] + [c] + sorted[i..]) == multiset(sorted) + multiset{c}
  {
    assert sorted == sorted[..i] + sorted[i..];
  }

  lemma {:induction false} ReverseKeeps<Id>(s: seq<set<Id>>)
    ensures multiset(seq(|s|, i requires 0 <= i < |s| => s[|s| - 1 - i])) == multiset(s)
  {
    var r := seq(|s|, i requires 0 <= i < |s| => s[|s| - 1 - i]);
    if s != [] {
      var t := s[1..];
      ReverseKeeps(t);
      assert r == seq(|t|, i requires 0 <= i < |t| => t[|t| - 1 - i]) + [s[0]];
      assert s == [s[0]] + t;
    }
  }
}
