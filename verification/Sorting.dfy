/** Sorting by a total order, as a function of the list: the sorted list depends only on the elements. */
module Sorting {

  ghost predicate TotalPreorder<X(!new)>(leq: (X, X) -> bool) {
    && (forall a, b :: leq(a, b) || leq(b, a))
    && (forall a, b, c :: leq(a, b) && leq(b, c) ==> leq(a, c))
  }

  ghost predicate TotalOrder<X(!new)>(leq: (X, X) -> bool) {
    TotalPreorder(leq) && forall a, b :: leq(a, b) && leq(b, a) ==> a == b
  }

  ghost predicate Sorted<X>(leq: (X, X) -> bool, s: seq<X>) {
    forall i, j :: 0 <= i < j < |s| ==> leq(s[i], s[j])
  }

  /** Puts `x` before the first element that it is not above. */
  function Place<X>(leq: (X, X) -> bool, x: X, s: seq<X>): seq<X> {
    if s == [] || leq(x, s[0]) then [x] + s else [s[0]] + Place(leq, x, s[1..])
  }

  function Sort<X>(leq: (X, X) -> bool, s: seq<X>): seq<X> {
    if s == [] then [] else Place(leq, s[0], Sort(leq, s[1..]))
  }

  lemma {:induction false} PlaceElements<X>(leq: (X, X) -> bool, x: X, s: seq<X>)
    ensures multiset(Place(leq, x, s)) == multiset(s) + multiset{x}
  {
    if s != [] {
      assert s == [s[0]] + s[1..];
      PlaceElements(leq, x, s[1..]);
    }
  }

  lemma {:induction false} PlaceSorted<X(!new)>(leq: (X, X) -> bool, x: X, s: seq<X>)
    requires TotalPreorder(leq) && Sorted(leq, s)
    ensures Sorted(leq, Place(leq, x, s))
  {
    if s != [] && !leq(x, s[0]) {
      PlaceSorted(leq, x, s[1..]);
      var rest := Place(leq, x, s[1..]);
      forall i | 0 <= i < |rest|
        ensures leq(s[0], rest[i])
      {
        PlaceElements(leq, x, s[1..]);
        assert rest[i] in multiset(rest);
        assert rest[i] in s[1..] || rest[i] == x;
      }
    }
  }

  lemma {:induction false} SortSorted<X(!new)>(leq: (X, X) -> bool, s: seq<X>)
    requires TotalPreorder(leq)
    ensures Sorted(leq, Sort(leq, s)) && multiset(Sort(leq, s)) == multiset(s)
  {
    if s != [] {
      assert s == [s[0]] + s[1..];
      SortSorted(leq, s[1..]);
      PlaceSorted(leq, s[0], Sort(leq, s[1..]));
      PlaceElements(leq, s[0], Sort(leq, s[1..]));
    }
  }

  /** `places` says where each element of `t` stands in `s`; no place is taken twice. */
  ghost predicate Placed<X>(s: seq<X>, places: seq<nat>, t: seq<X>) {
    && |places| == |t|
    && (forall i :: 0 <= i < |t| ==> places[i] < |s| && t[i] == s[places[i]])
    && (forall i, j :: 0 <= i < j < |t| ==> places[i] != places[j])
  }

  /** Elements that rank alike stand as they did. */
  ghost predicate Stable<X>(leq: (X, X) -> bool, places: seq<nat>, t: seq<X>) {
    |places| == |t| && forall i, j :: 0 <= i < j < |t| && leq(t[j], t[i]) ==> places[i] < places[j]
  }

  /** Every element of the sorted list has its own place in the list, and sorting is stable. */
  lemma {:induction false} SortPlaces<X(!new)>(leq: (X, X) -> bool, s: seq<X>) returns (places: seq<nat>)
    requires TotalPreorder(leq)
    ensures Placed(s, places, Sort(leq, s)) && Stable(leq, places, Sort(leq, s))
    ensures forall p: nat :: p < |s| ==> p in places
  {
    if s == [] {
      places := [];
    } else {
      var rest := SortPlaces(leq, s[1..]);
      places := PlacePlaces(leq, s, Sort(leq, s[1..]), rest);
    }
  }

  /** The list with `x` put in at place `n`. */
  function PutIn<X>(s: seq<X>, n: nat, x: X): (t: seq<X>)
    requires n <= |s|
    ensures |t| == |s| + 1 && t[n] == x
    ensures forall i :: 0 <= i < |t| && i != n ==> t[i] == s[if i < n then i else i - 1]
  {
    s[..n] + [x] + s[n..]
  }

  lemma PlacePlaces<X(!new)>(leq: (X, X) -> bool, s: seq<X>, t: seq<X>, rest: seq<nat>) returns (places: seq<nat>)
    requires s != [] && Placed(s[1..], rest, t) && Stable(leq, rest, t)
    requires forall p: nat :: p < |s| - 1 ==> p in rest
    ensures Placed(s, places, Place(leq, s[0], t)) && Stable(leq, places, Place(leq, s[0], t))
    ensures forall p: nat :: p < |s| ==> p in places
  {
    hide Place, PutIn;
    var n := PlaceSplits(leq, s[0], t);
    var moved := seq(|rest|, i requires 0 <= i < |rest| => rest[i] + 1);
    places := PutIn(moved, n, 0);
    var u := PutIn(t, n, s[0]);
    forall i | 0 <= i < |u|
      ensures places[i] < |s| && u[i] == s[places[i]]
    {
      if i != n {
        var k := if i < n then i else i - 1;
        assert t[k] == s[1..][rest[k]] && moved[k] == rest[k] + 1;
      }
    }
    AllPlaces(rest, moved, n, |s|);
    forall i, j | 0 <= i < j < |u|
      ensures places[i] != places[j] && (leq(u[j], u[i]) ==> places[i] < places[j])
    {
      if i != n && j != n {
        var k, l := if i < n then i else i - 1, if j < n then j else j - 1;
        assert rest[k] != rest[l] && (leq(t[l], t[k]) ==> rest[k] < rest[l]);
      }
    }
  }

  lemma AllPlaces(rest: seq<nat>, moved: seq<nat>, n: nat, size: nat)
    requires |moved| == |rest| && (forall i :: 0 <= i < |rest| ==> moved[i] == rest[i] + 1) && n <= |rest|
    requires forall p: nat :: p < size - 1 ==> p in rest
    ensures forall p: nat :: p < size ==> p in PutIn(moved, n, 0)
  {
    hide PutIn;
    var places := PutIn(moved, n, 0);
    forall p: nat | p < size
      ensures p in places
    {
      if p > 0 {
        assert p - 1 in rest;
        var k :| 0 <= k < |rest| && rest[k] == p - 1;
        assert places[if k < n then k else k + 1] == moved[k];
      } else {
        assert places[n] == 0;
      }
    }
  }

  /** Where an element is put. */
  lemma {:induction false} PlaceSplits<X>(leq: (X, X) -> bool, x: X, s: seq<X>) returns (n: nat)
    ensures n <= |s| && Place(leq, x, s) == PutIn(s, n, x)
    ensures forall i :: 0 <= i < n ==> !leq(x, s[i])
  {
    if s == [] || leq(x, s[0]) {
      n := 0;
    } else {
      var m := PlaceSplits(leq, x, s[1..]);
      n := m + 1;
      assert s[..n] == [s[0]] + s[1..][..m] && s[n..] == s[1..][m..];
    }
  }

  /** The elements of `s` that rank with `x`, in sequence. */
  function Alike<X>(leq: (X, X) -> bool, x: X, s: seq<X>): seq<X> {
    if s == [] then []
    else (if leq(s[0], x) && leq(x, s[0]) then [s[0]] else []) + Alike(leq, x, s[1..])
  }

  lemma {:induction false} PlaceStable<X(!new)>(leq: (X, X) -> bool, x: X, s: seq<X>, y: X)
    requires TotalPreorder(leq)
    ensures Alike(leq, y, Place(leq, x, s)) == Alike(leq, y, [x] + s)
  {
    assert ([x] + s)[1..] == s;
    if s != [] && !leq(x, s[0]) {
      PlaceStable(leq, x, s[1..], y);
      assert ([x] + s[1..])[1..] == s[1..];
      assert ([s[0]] + Place(leq, x, s[1..]))[1..] == Place(leq, x, s[1..]);
    }
  }

  /** Sorting is stable: elements that rank alike keep their sequence. */
  lemma {:induction false} SortStable<X(!new)>(leq: (X, X) -> bool, s: seq<X>, y: X)
    requires TotalPreorder(leq)
    ensures Alike(leq, y, Sort(leq, s)) == Alike(leq, y, s)
  {
    if s != [] {
      SortStable(leq, s[1..], y);
      PlaceStable(leq, s[0], Sort(leq, s[1..]), y);
      assert ([s[0]] + Sort(leq, s[1..]))[1..] == Sort(leq, s[1..]);
    }
  }

  /** Sorted lists of the same elements begin alike. */
  lemma SameHead<X(!new)>(leq: (X, X) -> bool, s: seq<X>, t: seq<X>)
    requires TotalOrder(leq) && Sorted(leq, s) && Sorted(leq, t) && multiset(s) == multiset(t) && s != [] && t != []
    ensures s[0] == t[0]
  {
    assert s[0] in multiset(t) && t[0] in multiset(s);
    var i :| 0 <= i < |t| && t[i] == s[0];
    var j :| 0 <= j < |s| && s[j] == t[0];
    assert i == 0 || leq(t[0], t[i]);
    assert j == 0 || leq(s[0], s[j]);
  }

  lemma SortedRest<X>(leq: (X, X) -> bool, s: seq<X>)
    requires Sorted(leq, s) && s != []
    ensures Sorted(leq, s[1..]) && multiset(s[1..]) == multiset(s) - multiset{s[0]}
  {
    assert s == [s[0]] + s[1..];
  }

  lemma {:induction false} SortedUnique<X(!new)>(leq: (X, X) -> bool, s: seq<X>, t: seq<X>)
    requires TotalOrder(leq) && Sorted(leq, s) && Sorted(leq, t) && multiset(s) == multiset(t)
    ensures s == t
  {
    hide TotalOrder, Sorted;
    assert |s| == |multiset(s)| == |multiset(t)| == |t|;
    if s != [] {
      SameHead(leq, s, t);
      SortedRest(leq, s);
      SortedRest(leq, t);
      SortedUnique(leq, s[1..], t[1..]);
      assert s == [s[0]] + s[1..] && t == [t[0]] + t[1..];
    }
  }

  /** Permutations sort to the same list. */
  lemma SortPermutation<X(!new)>(leq: (X, X) -> bool, s: seq<X>, t: seq<X>)
    requires TotalOrder(leq) && multiset(s) == multiset(t)
    ensures Sort(leq, s) == Sort(leq, t)
  {
    SortSorted(leq, s);
    SortSorted(leq, t);
    SortedUnique(leq, Sort(leq, s), Sort(leq, t));
  }

  /** Sorting a sorted list changes nothing. */
  lemma SortIdempotent<X(!new)>(leq: (X, X) -> bool, s: seq<X>)
    requires TotalOrder(leq)
    ensures Sort(leq, Sort(leq, s)) == Sort(leq, s)
  {
    SortSorted(leq, s);
    SortPermutation(leq, Sort(leq, s), s);
  }
}
