/**
  Backtest data of a block: dropping orders that arrived too late, keeping one copy of each
  replaceable order, and adding the orders of the landed block to a snapshot.
 */
module Backtest {
  import opened Wrappers
  import opened Sorting
  import opened OrderReplacement

  datatype TimedOrder = TimedOrder(timestamp: nat, order: Order)

  datatype Reason = Timestamp | Replaced

  // ---------------------------------------------------------------------------
  // Picking elements of a list

  /** The elements of `s` whose flag is set, in sequence. */
  function Select<X>(s: seq<X>, flags: seq<bool>): seq<X>
    requires |s| == |flags|
  {
    if s == [] then []
    else
      var n := |s| - 1;
      Select(s[..n], flags[..n]) + if flags[n] then [s[n]] else []
  }

  lemma {:induction false} SelectElements<X>(s: seq<X>, flags: seq<bool>, x: X)
    requires |s| == |flags|
    ensures x in Select(s, flags) <==> exists i :: 0 <= i < |s| && flags[i] && s[i] == x
  {
    if s != [] {
      var n := |s| - 1;
      SelectElements(s[..n], flags[..n], x);
      if i :| 0 <= i < |s| && flags[i] && s[i] == x {
        assert i == n || (flags[..n][i] && s[..n][i] == x);
      }
    }
  }

  lemma {:induction false} SelectCopies<X>(s: seq<X>, flags: seq<bool>, x: X)
    requires |s| == |flags|
    ensures multiset(Select(s, flags))[x] <= multiset(s)[x]
    ensures multiset(Select(s, flags))[x] == multiset(s)[x] <==> forall i :: 0 <= i < |s| && s[i] == x ==> flags[i]
  {
    if s != [] {
      var n := |s| - 1;
      SelectCopies(s[..n], flags[..n], x);
      assert s == s[..n] + [s[n]];
      assert multiset(s)[x] == multiset(s[..n])[x] + if s[n] == x then 1 else 0;
      AllFlagged(s, flags, x);
    }
  }

  lemma AllFlagged<X>(s: seq<X>, flags: seq<bool>, x: X)
    requires |s| == |flags| && s != []
    ensures var n := |s| - 1;
            (forall i :: 0 <= i < |s| && s[i] == x ==> flags[i]) <==>
            (forall i :: 0 <= i < n && s[..n][i] == x ==> flags[..n][i]) && (s[n] == x ==> flags[n])
  {
    var n := |s| - 1;
    forall i | 0 <= i < n
      ensures s[..n][i] == s[i] && flags[..n][i] == flags[i]
    {
    }
  }

  /** `t` is `s` at the given places, in sequence. */
  ghost predicate Picks<X>(s: seq<X>, places: seq<nat>, t: seq<X>) {
    && |places| == |t|
    && (forall i :: 0 <= i < |t| ==> places[i] < |s| && t[i] == s[places[i]])
    && (forall i, j :: 0 <= i < j < |t| ==> places[i] < places[j])
  }

  /** The selected elements stand as they did, and their places are those with the flag set. */
  lemma {:induction false} SelectPlaces<X>(s: seq<X>, flags: seq<bool>) returns (places: seq<nat>)
    requires |s| == |flags|
    ensures Picks(s, places, Select(s, flags))
    ensures forall p: nat :: p < |s| ==> (p in places <==> flags[p])
  {
    if s == [] {
      places := [];
    } else {
      var n := |s| - 1;
      var before := SelectPlaces(s[..n], flags[..n]);
      places := before + if flags[n] then [n] else [];
      hide Select;
      PicksMore(s, flags, before, Select(s[..n], flags[..n]));
      SelectLast(s, flags);
    }
  }

  lemma SelectLast<X>(s: seq<X>, flags: seq<bool>)
    requires |s| == |flags| > 0
    ensures var n := |s| - 1; Select(s, flags) == Select(s[..n], flags[..n]) + if flags[n] then [s[n]] else []
  {
  }

  lemma PicksMore<X>(s: seq<X>, flags: seq<bool>, places: seq<nat>, t: seq<X>)
    requires |s| == |flags| > 0
    requires var n := |s| - 1; Picks(s[..n], places, t) && forall p: nat :: p < n ==> (p in places <==> flags[..n][p])
    ensures var n := |s| - 1;
            var more := places + if flags[n] then [n] else [];
            && Picks(s, more, t + if flags[n] then [s[n]] else [])
            && forall p: nat :: p < |s| ==> (p in more <==> flags[p])
  {
    var n := |s| - 1;
    assert forall i :: 0 <= i < |places| ==> places[i] < n && s[..n][places[i]] == s[places[i]];
    assert n !in places;
    assert forall p: nat :: p < n ==> flags[..n][p] == flags[p];
  }

  /** The record `m` with the ids of the orders whose flag is not set. */
  function Record(s: seq<TimedOrder>, flags: seq<bool>, reason: Reason, m: map<OrderId, Reason>): map<OrderId, Reason>
    requires |s| == |flags|
  {
    if s == [] then m
    else
      var n := |s| - 1;
      var r := Record(s[..n], flags[..n], reason, m);
      if flags[n] then r else r[s[n].order.id := reason]
  }

  /** Exactly the ids of dropped orders are recorded, with the reason, over what was there. */
  lemma {:induction false} RecordIds(s: seq<TimedOrder>, flags: seq<bool>, reason: Reason, m: map<OrderId, Reason>,
                                     id: OrderId)
    requires |s| == |flags|
    ensures (exists i :: 0 <= i < |s| && !flags[i] && s[i].order.id == id) ==>
              id in Record(s, flags, reason, m) && Record(s, flags, reason, m)[id] == reason
    ensures (forall i :: 0 <= i < |s| && s[i].order.id == id ==> flags[i]) ==>
              (id in Record(s, flags, reason, m) <==> id in m)
              && (id in m ==> Record(s, flags, reason, m)[id] == m[id])
  {
    if s != [] {
      var n := |s| - 1;
      RecordIds(s[..n], flags[..n], reason, m, id);
      if i :| 0 <= i < |s| && !flags[i] && s[i].order.id == id {
        assert i == n || (!flags[..n][i] && s[..n][i].order.id == id);
      }
    }
  }

  // ---------------------------------------------------------------------------
  // Filtering by end timestamp

  predicate Ahead(a: TimedOrder, b: TimedOrder) {
    a.timestamp > b.timestamp || (a.timestamp == b.timestamp && a.order.id <= b.order.id)
  }

  lemma AheadIsPreorder()
    ensures TotalPreorder(Ahead)
  {
  }

  predicate OnTime(o: TimedOrder, landed: set<OrderId>, end: nat) {
    o.order.id in landed || o.timestamp <= end
  }

  function OnTimeFlags(s: seq<TimedOrder>, landed: set<OrderId>, end: nat): seq<bool> {
    seq(|s|, i requires 0 <= i < |s| => OnTime(s[i], landed, end))
  }

  /** Whether the order at place `i` of the list survives: landed orders always, others unless an order ahead
      of it that survives has its replacement key. */
  predicate Survives(s: seq<TimedOrder>, landed: set<OrderId>, i: nat)
    requires i < |s|
    decreases i
  {
    || s[i].order.id in landed
    || s[i].order.key.None?
    || forall j :: 0 <= j < i && Survives(s, landed, j) ==> s[j].order.key != s[i].order.key
  }

  function SurvivorFlags(s: seq<TimedOrder>, landed: set<OrderId>): seq<bool> {
    seq(|s|, i requires 0 <= i < |s| => Survives(s, landed, i))
  }

  /** The orders on time, latest first. */
  function Candidates(s: seq<TimedOrder>, landed: set<OrderId>, end: nat): seq<TimedOrder> {
    Sort(Ahead, Select(s, OnTimeFlags(s, landed, end)))
  }

  /** What filtering leaves. */
  function Filtered(s: seq<TimedOrder>, landed: set<OrderId>, end: nat): seq<TimedOrder> {
    var c := Candidates(s, landed, end);
    Select(c, SurvivorFlags(c, landed))
  }

  /** What filtering adds to the record `m` of dropped orders. */
  function Recorded(s: seq<TimedOrder>, landed: set<OrderId>, end: nat, m: map<OrderId, Reason>): map<OrderId, Reason> {
    var c := Candidates(s, landed, end);
    Record(c, SurvivorFlags(c, landed), Replaced, Record(s, OnTimeFlags(s, landed, end), Timestamp, m))
  }

  /** One of the first `n` orders survives and has the key. */
  ghost predicate Taken(s: seq<TimedOrder>, landed: set<OrderId>, n: nat, k: Key)
    requires n <= |s|
  {
    exists j :: 0 <= j < n && Survives(s, landed, j) && s[j].order.key == Some(k)
  }

  lemma SurvivesUntaken(s: seq<TimedOrder>, landed: set<OrderId>, n: nat)
    requires n < |s|
    ensures Survives(s, landed, n) <==>
              s[n].order.id in landed || s[n].order.key.None? || !Taken(s, landed, n, s[n].order.key.value)
    ensures forall k: Key :: Taken(s, landed, n + 1, k) <==>
              Taken(s, landed, n, k) || (Survives(s, landed, n) && s[n].order.key == Some(k))
  {
  }

  // What filtering leaves, by the places of the orders in the list.

  /** The order at place `p` comes before the one at `q`: it is later, of the same time with a lower id, or alike and
      ahead in the list. */
  ghost predicate Before(s: seq<TimedOrder>, p: nat, q: nat)
    requires p < |s| && q < |s|
  {
    || s[p].timestamp > s[q].timestamp
    || (s[p].timestamp == s[q].timestamp
        && (s[p].order.id < s[q].order.id || (s[p].order.id == s[q].order.id && p < q)))
  }

  /** One of the places holds an order with the key that comes before the one at `p`. */
  ghost predicate Outdone(s: seq<TimedOrder>, places: seq<nat>, p: nat)
    requires p < |s|
  {
    exists q :: q in places && q < |s| && Before(s, q, p) && s[q].order.key == s[p].order.key
  }

  /** What is left of `s` is at `places`, sorted: the landed orders, and those on time that no order left outdoes. */
  ghost predicate IsFiltering(s: seq<TimedOrder>, landed: set<OrderId>, end: nat, places: seq<nat>,
                              t: seq<TimedOrder>) {
    && |places| == |t|
    && (forall i :: 0 <= i < |t| ==> places[i] < |s| && t[i] == s[places[i]])
    && (forall i, j :: 0 <= i < j < |t| ==> Before(s, places[i], places[j]))
    && (forall p: nat :: p < |s| ==>
          (p in places <==>
             || s[p].order.id in landed
             || (s[p].timestamp <= end && (s[p].order.key.None? || !Outdone(s, places, p)))))
  }

  /** The ids of dropped orders are in the record `m'`, over what was in `m`: as replaced if one on time was dropped,
      and otherwise as late. */
  ghost predicate IsRecord(s: seq<TimedOrder>, end: nat, places: seq<nat>, m: map<OrderId, Reason>,
                           m': map<OrderId, Reason>) {
    forall id: OrderId :: IsRecordOf(s, end, places, m, m', id)
  }

  ghost predicate IsRecordOf(s: seq<TimedOrder>, end: nat, places: seq<nat>, m: map<OrderId, Reason>,
                             m': map<OrderId, Reason>, id: OrderId) {
    if Dropped(s, end, places, id, true) then id in m' && m'[id] == Replaced
    else if Dropped(s, end, places, id, false) then id in m' && m'[id] == Timestamp
    else (id in m' <==> id in m) && (id in m ==> m'[id] == m[id])
  }

  /** An order with the id, on time or not, is not at one of the places. */
  ghost predicate Dropped(s: seq<TimedOrder>, end: nat, places: seq<nat>, id: OrderId, onTime: bool) {
    exists p: nat :: p < |s| && p !in places && s[p].order.id == id && (s[p].timestamp <= end <==> onTime)
  }

  class BlockData {
    var available: seq<TimedOrder>
    var filtered: map<OrderId, Reason>
    const landed: set<OrderId>

    constructor (available: seq<TimedOrder>, landed: set<OrderId>)
      ensures this.available == available && this.landed == landed && filtered == map[]
    {
      this.available := available;
      this.landed := landed;
      filtered := map[];
    }

    /** Drops late orders, then all but the latest of the orders with the same replacement key. */
    method FilterByEndTimestamp(end: nat) returns (ghost places: seq<nat>)
      modifies this
      ensures IsFiltering(old(available), landed, end, places, available)
      ensures IsRecord(old(available), end, places, old(filtered), filtered)
      ensures available == Filtered(old(available), landed, end)
      ensures filtered == Recorded(old(available), landed, end, old(filtered))
    {
      hide IsFiltering, IsRecord, Filtered, Recorded;
      var _ := RetainOnTime(end);
      available := Sort(Ahead, available);
      var _ := RetainUnreplaced();
      FilteredFrom(old(available), landed, end, old(filtered));
      places := FilterPlaces(old(available), landed, end, old(filtered));
    }

    method RetainOnTime(end: nat) returns (ghost places: seq<nat>)
      modifies this
      ensures Picks(old(available), places, available)
      ensures forall p: nat :: p < |old(available)| ==>
                (p in places <==> old(available)[p].order.id in landed || old(available)[p].timestamp <= end)
      ensures available == Select(old(available), OnTimeFlags(old(available), landed, end))
      ensures filtered == Record(old(available), OnTimeFlags(old(available), landed, end), Timestamp, old(filtered))
    {
      var kept: seq<TimedOrder> := [];
      ghost var all, flags := available, OnTimeFlags(available, landed, end);
      for n := 0 to |available|
        invariant available == all && kept == Select(all[..n], flags[..n])
        invariant filtered == Record(all[..n], flags[..n], Timestamp, old(filtered))
      {
        var o := available[n];
        assert all[..n + 1][..n] == all[..n] && flags[..n + 1][..n] == flags[..n];
        if o.order.id in landed {
          kept := kept + [o];
        } else if o.timestamp <= end {
          kept := kept + [o];
        } else {
          filtered := filtered[o.order.id := Timestamp];
        }
      }
      assert all[..|all|] == all && flags[..|all|] == flags;
      available := kept;
      places := SelectPlaces(all, flags);
    }

    method RetainUnreplaced() returns (ghost places: seq<nat>)
      modifies this
      ensures Picks(old(available), places, available)
      ensures forall p: nat :: p < |old(available)| ==>
                (p in places <==>
                   || old(available)[p].order.id in landed
                   || old(available)[p].order.key.None?
                   || !exists q :: q in places && q < p && old(available)[q].order.key == old(available)[p].order.key)
      ensures available == Select(old(available), SurvivorFlags(old(available), landed))
      ensures filtered == Record(old(available), SurvivorFlags(old(available), landed), Replaced, old(filtered))
    {
      var kept: seq<TimedOrder> := [];
      var seen: set<Key> := {};
      ghost var all, flags := available, SurvivorFlags(available, landed);
      for n := 0 to |available|
        invariant available == all && kept == Select(all[..n], flags[..n])
        invariant forall k: Key :: k in seen <==> Taken(all, landed, n, k)
        invariant filtered == Record(all[..n], flags[..n], Replaced, old(filtered))
      {
        var o := available[n];
        assert all[..n + 1][..n] == all[..n] && flags[..n + 1][..n] == flags[..n];
        var skip := o.order.key.Some? && o.order.id !in landed && o.order.key.value in seen;
        SurvivesUntaken(all, landed, n);
        if skip {
          filtered := filtered[o.order.id := Replaced];
        } else {
          kept := kept + [o];
          if o.order.key.Some? {
            seen := seen + {o.order.key.value};
          }
        }
      }
      assert all[..|all|] == all && flags[..|all|] == flags;
      available := kept;
      places := SelectPlaces(all, flags);
      SurvivorPlaces(all, landed, places);
    }
  }

  lemma SurvivorPlaces(s: seq<TimedOrder>, landed: set<OrderId>, places: seq<nat>)
    requires forall p: nat :: p < |s| ==> (p in places <==> Survives(s, landed, p))
    ensures forall p: nat :: p < |s| ==>
              (p in places <==>
                 || s[p].order.id in landed
                 || s[p].order.key.None?
                 || !exists q :: q in places && q < p && s[q].order.key == s[p].order.key)
  {
    forall p: nat | p < |s|
      ensures Survives(s, landed, p) <==>
                || s[p].order.id in landed
                || s[p].order.key.None?
                || !exists q :: q in places && q < p && s[q].order.key == s[p].order.key
    {
      if q :| q in places && q < p && s[q].order.key == s[p].order.key {
        assert Survives(s, landed, q);
      }
      if q :| 0 <= q < p && Survives(s, landed, q) && s[q].order.key == s[p].order.key {
        assert q in places;
      }
    }
  }

  lemma FilteredFrom(s: seq<TimedOrder>, landed: set<OrderId>, end: nat, m: map<OrderId, Reason>)
    ensures var c := Sort(Ahead, Select(s, OnTimeFlags(s, landed, end)));
            && Filtered(s, landed, end) == Select(c, SurvivorFlags(c, landed))
            && Recorded(s, landed, end, m) ==
                 Record(c, SurvivorFlags(c, landed), Replaced, Record(s, OnTimeFlags(s, landed, end), Timestamp, m))
  {
  }

  /** The places in `s` of a list whose places in a list of places are known. */
  ghost function Through(outer: seq<nat>, inner: seq<nat>): (r: seq<nat>)
    requires forall i :: 0 <= i < |inner| ==> inner[i] < |outer|
    ensures |r| == |inner| && forall i :: 0 <= i < |inner| ==> r[i] == outer[inner[i]]
  {
    seq(|inner|, i requires 0 <= i < |inner| => outer[inner[i]])
  }

  /** Where the candidates stand in the list: each on its own place, latest first. */
  lemma CandidatePlaces(s: seq<TimedOrder>, landed: set<OrderId>, end: nat) returns (places: seq<nat>)
    ensures Placed(s, places, Candidates(s, landed, end))
    ensures forall p: nat :: p < |s| ==> (p in places <==> OnTime(s[p], landed, end))
    ensures forall i, j :: 0 <= i < j < |places| ==> Before(s, places[i], places[j])
  {
    hide Sort, Select, OnTime, TotalPreorder;
    var flags := OnTimeFlags(s, landed, end);
    var picked := Select(s, flags);
    var outer := SelectPlaces(s, flags);
    AheadIsPreorder();
    SortSorted(Ahead, picked);
    var inner := SortPlaces(Ahead, picked);
    places := Through(outer, inner);
    var c := Candidates(s, landed, end);
    forall i, j | 0 <= i < j < |places|
      ensures Before(s, places[i], places[j])
    {
      assert Ahead(c[i], c[j]);
      assert Ahead(c[j], c[i]) ==> inner[i] < inner[j];
    }
    forall p: nat | p < |s|
      ensures p in places <==> flags[p]
    {
      ThroughAll(outer, inner, p);
    }
  }

  lemma ThroughAll(outer: seq<nat>, inner: seq<nat>, p: nat)
    requires (forall i :: 0 <= i < |inner| ==> inner[i] < |outer|) && forall k: nat :: k < |outer| ==> k in inner
    ensures p in Through(outer, inner) <==> p in outer
  {
    if p in outer {
      var k: nat :| k < |outer| && outer[k] == p;
      assert k in inner;
      var i :| 0 <= i < |inner| && inner[i] == k;
      assert Through(outer, inner)[i] == p;
    }
  }

  /** The candidates stand at `outer` of the list, and the survivors at `inner` of the candidates. */
  ghost predicate Layered(s: seq<TimedOrder>, landed: set<OrderId>, end: nat, outer: seq<nat>, inner: seq<nat>) {
    var c := Candidates(s, landed, end);
    && Placed(s, outer, c) && Picks(c, inner, Filtered(s, landed, end))
    && (forall p: nat :: p < |s| ==> (p in outer <==> OnTime(s[p], landed, end)))
    && (forall i, j :: 0 <= i < j < |outer| ==> Before(s, outer[i], outer[j]))
    && (forall k: nat :: k < |c| ==> (k in inner <==> Survives(c, landed, k)))
  }

  /** Filtering leaves what it should, where it should. */
  lemma FilterPlaces(s: seq<TimedOrder>, landed: set<OrderId>, end: nat, m: map<OrderId, Reason>)
    returns (places: seq<nat>)
    ensures IsFiltering(s, landed, end, places, Filtered(s, landed, end))
    ensures IsRecord(s, end, places, m, Recorded(s, landed, end, m))
  {
    var c := Candidates(s, landed, end);
    var outer := CandidatePlaces(s, landed, end);
    var inner := SelectPlaces(c, SurvivorFlags(c, landed));
    assert Layered(s, landed, end, outer, inner);
    hide Layered, Candidates, Filtered;
    places := Through(outer, inner);
    LayeredFiltering(s, landed, end, outer, inner);
    forall id: OrderId
      ensures IsRecordOf(s, end, places, m, Recorded(s, landed, end, m), id)
    {
      RecordPlaces(s, landed, end, outer, inner, m, id);
    }
  }

  lemma LayeredFiltering(s: seq<TimedOrder>, landed: set<OrderId>, end: nat, outer: seq<nat>, inner: seq<nat>)
    requires Layered(s, landed, end, outer, inner)
    ensures IsFiltering(s, landed, end, Through(outer, inner), Filtered(s, landed, end))
  {
    hide Candidates, Filtered, Survives, Outdone;
    var places := Through(outer, inner);
    forall p: nat | p < |s|
      ensures p in places <==>
                || s[p].order.id in landed
                || (s[p].timestamp <= end && (s[p].order.key.None? || !Outdone(s, places, p)))
    {
      if p in outer {
        var k: nat :| k < |outer| && outer[k] == p;
        PlaceSurvives(s, landed, end, outer, inner, k);
      }
    }
  }

  lemma PlaceSurvives(s: seq<TimedOrder>, landed: set<OrderId>, end: nat, outer: seq<nat>, inner: seq<nat>, k: nat)
    requires Layered(s, landed, end, outer, inner) && k < |outer|
    ensures var places, p := Through(outer, inner), outer[k];
            && (p in places <==> Survives(Candidates(s, landed, end), landed, k))
            && (p in places <==> s[p].order.id in landed || s[p].order.key.None? || !Outdone(s, places, p))
  {
    hide Candidates, Filtered, Outdone, Through;
    var c := Candidates(s, landed, end);
    InnerPlace(outer, inner, k);
    OutdoneIsTaken(s, landed, end, outer, inner, k);
    assert c[k] == s[outer[k]];
    assert Survives(c, landed, k) <==>
             || c[k].order.id in landed
             || c[k].order.key.None?
             || !exists j :: 0 <= j < k && Survives(c, landed, j) && c[j].order.key == c[k].order.key;
  }

  /** An order left comes before one with its key exactly when a surviving candidate ahead of it has the key. */
  lemma OutdoneIsTaken(s: seq<TimedOrder>, landed: set<OrderId>, end: nat, outer: seq<nat>, inner: seq<nat>, k: nat)
    requires Layered(s, landed, end, outer, inner) && k < |outer|
    ensures var c := Candidates(s, landed, end);
            Outdone(s, Through(outer, inner), outer[k]) <==>
              exists j :: 0 <= j < k && Survives(c, landed, j) && c[j].order.key == c[k].order.key
  {
    hide Candidates, Filtered, Survives;
    var c, places, p := Candidates(s, landed, end), Through(outer, inner), outer[k];
    if Outdone(s, places, p) {
      var q :| q in places && q < |s| && Before(s, q, p) && s[q].order.key == s[p].order.key;
      var i :| 0 <= i < |inner| && places[i] == q;
      assert inner[i] in inner && Survives(c, landed, inner[i]);
      assert inner[i] < k;
    }
    if j :| 0 <= j < k && Survives(c, landed, j) && c[j].order.key == c[k].order.key {
      InnerPlace(outer, inner, j);
      assert Before(s, outer[j], p);
    }
  }

  lemma InnerPlace(outer: seq<nat>, inner: seq<nat>, k: nat)
    requires (forall i :: 0 <= i < |inner| ==> inner[i] < |outer|) && k < |outer|
    requires forall i, j :: 0 <= i < j < |outer| ==> outer[i] != outer[j]
    ensures outer[k] in Through(outer, inner) <==> k in inner
  {
    if k in inner {
      var i :| 0 <= i < |inner| && inner[i] == k;
      assert Through(outer, inner)[i] == outer[k];
    }
  }

  lemma RecordPlaces(s: seq<TimedOrder>, landed: set<OrderId>, end: nat, outer: seq<nat>, inner: seq<nat>,
                     m: map<OrderId, Reason>, id: OrderId)
    requires Layered(s, landed, end, outer, inner)
    ensures IsRecordOf(s, end, Through(outer, inner), m, Recorded(s, landed, end, m), id)
  {
    hide Layered, Dropped, Candidates;
    var c, flags := Candidates(s, landed, end), OnTimeFlags(s, landed, end);
    DroppedOnTime(s, landed, end, outer, inner, id);
    DroppedLate(s, landed, end, outer, inner, id);
    RecordIds(s, flags, Timestamp, m, id);
    RecordIds(c, SurvivorFlags(c, landed), Replaced, Record(s, flags, Timestamp, m), id);
  }

  lemma DroppedOnTime(s: seq<TimedOrder>, landed: set<OrderId>, end: nat, outer: seq<nat>, inner: seq<nat>, id: OrderId)
    requires Layered(s, landed, end, outer, inner)
    ensures var c := Candidates(s, landed, end);
            Dropped(s, end, Through(outer, inner), id, true) <==>
              exists k :: 0 <= k < |c| && !SurvivorFlags(c, landed)[k] && c[k].order.id == id
  {
    hide Candidates, Filtered, Survives;
    var c, places := Candidates(s, landed, end), Through(outer, inner);
    if Dropped(s, end, places, id, true) {
      var p: nat :| p < |s| && p !in places && s[p].order.id == id && s[p].timestamp <= end;
      assert p in outer;
      var k: nat :| k < |outer| && outer[k] == p;
      PlaceSurvives(s, landed, end, outer, inner, k);
      assert !SurvivorFlags(c, landed)[k];
    }
    if k :| 0 <= k < |c| && !SurvivorFlags(c, landed)[k] && c[k].order.id == id {
      PlaceSurvives(s, landed, end, outer, inner, k);
      assert outer[k] in outer && outer[k] !in places;
    }
  }

  lemma DroppedLate(s: seq<TimedOrder>, landed: set<OrderId>, end: nat, outer: seq<nat>, inner: seq<nat>, id: OrderId)
    requires Layered(s, landed, end, outer, inner)
    ensures Dropped(s, end, Through(outer, inner), id, false) <==>
              exists i :: 0 <= i < |s| && !OnTimeFlags(s, landed, end)[i] && s[i].order.id == id
  {
    hide Candidates, Filtered, Survives;
    var places, flags := Through(outer, inner), OnTimeFlags(s, landed, end);
    if Dropped(s, end, places, id, false) {
      var p: nat :| p < |s| && p !in places && s[p].order.id == id && s[p].timestamp > end;
      if p in outer {
        var k: nat :| k < |outer| && outer[k] == p;
        PlaceSurvives(s, landed, end, outer, inner, k);
      }
      assert !flags[p];
    }
    if i :| 0 <= i < |s| && !flags[i] && s[i].order.id == id {
      assert i !in outer;
      forall j | 0 <= j < |places|
        ensures places[j] != i
      {
        assert outer[inner[j]] in outer;
      }
    }
  }

  ghost predicate LosesCopy(s: seq<TimedOrder>, landed: set<OrderId>, end: nat, o: TimedOrder) {
    multiset(Filtered(s, landed, end))[o] < multiset(s)[o]
  }

  /** An order loses a copy exactly when a copy is late or replaced. */
  lemma LosesCopyWhen(s: seq<TimedOrder>, landed: set<OrderId>, end: nat, o: TimedOrder)
    ensures var c := Candidates(s, landed, end);
            LosesCopy(s, landed, end, o) <==>
              || (exists i :: 0 <= i < |s| && s[i] == o && !OnTime(s[i], landed, end))
              || (exists i :: 0 <= i < |c| && c[i] == o && !Survives(c, landed, i))
  {
    hide Survives, OnTime, Select, Sort, Sorted, TotalPreorder;
    var flags, c := OnTimeFlags(s, landed, end), Candidates(s, landed, end);
    AheadIsPreorder();
    SortSorted(Ahead, Select(s, flags));
    SelectCopies(s, flags, o);
    SelectCopies(c, SurvivorFlags(c, landed), o);
  }

  /** The new ids in the record are exactly those of orders that lose a copy. */
  lemma RecordedAreDropped(s: seq<TimedOrder>, landed: set<OrderId>, end: nat, m: map<OrderId, Reason>, id: OrderId)
    ensures id in Recorded(s, landed, end, m) <==>
              id in m || exists o: TimedOrder :: o.order.id == id && LosesCopy(s, landed, end, o)
  {
    var flags, c := OnTimeFlags(s, landed, end), Candidates(s, landed, end);
    var survive := SurvivorFlags(c, landed);
    var late := Record(s, flags, Timestamp, m);
    RecordIds(s, flags, Timestamp, m, id);
    RecordIds(c, survive, Replaced, late, id);
    forall o: TimedOrder
      ensures LosesCopy(s, landed, end, o) <==>
              || (exists i :: 0 <= i < |s| && s[i] == o && !flags[i])
              || (exists i :: 0 <= i < |c| && c[i] == o && !survive[i])
    {
      LosesCopyWhen(s, landed, end, o);
    }
    if i :| 0 <= i < |s| && !flags[i] && s[i].order.id == id {
      assert LosesCopy(s, landed, end, s[i]);
    }
    if i :| 0 <= i < |c| && !survive[i] && c[i].order.id == id {
      assert LosesCopy(s, landed, end, c[i]);
    }
  }

  /** Landed orders keep all their copies. */
  lemma LandedSurvive(s: seq<TimedOrder>, landed: set<OrderId>, end: nat, o: TimedOrder)
    requires o.order.id in landed
    ensures multiset(Filtered(s, landed, end))[o] == multiset(s)[o]
  {
    var c, flags := Candidates(s, landed, end), OnTimeFlags(s, landed, end);
    SelectCopies(s, flags, o);
    AheadIsPreorder();
    SortSorted(Ahead, Select(s, flags));
    SelectCopies(c, SurvivorFlags(c, landed), o);
  }

  /** The candidates are the orders that landed or are on time, latest first; the survivors among them are left. */
  lemma SurvivorsOnTime(s: seq<TimedOrder>, landed: set<OrderId>, end: nat, o: TimedOrder)
    ensures Sorted(Ahead, Candidates(s, landed, end))
    ensures multiset(Candidates(s, landed, end))[o] == if OnTime(o, landed, end) then multiset(s)[o] else 0
    ensures var c := Candidates(s, landed, end);
            o in Filtered(s, landed, end) <==> exists i :: 0 <= i < |c| && c[i] == o && Survives(c, landed, i)
  {
    hide Candidates, Survives;
    CandidateCopies(s, landed, end, o);
    var c := Candidates(s, landed, end);
    SelectElements(c, SurvivorFlags(c, landed), o);
  }

  lemma CandidateCopies(s: seq<TimedOrder>, landed: set<OrderId>, end: nat, o: TimedOrder)
    ensures Sorted(Ahead, Candidates(s, landed, end))
    ensures multiset(Candidates(s, landed, end))[o] == if OnTime(o, landed, end) then multiset(s)[o] else 0
  {
    hide Sort, Select, OnTime;
    var flags := OnTimeFlags(s, landed, end);
    SelectElements(s, flags, o);
    SelectCopies(s, flags, o);
    AheadIsPreorder();
    SortSorted(Ahead, Select(s, flags));
    assert multiset(Candidates(s, landed, end))[o] == multiset(Select(s, flags))[o];
  }

  /** No two surviving orders share a replacement key unless the later one landed. */
  lemma OneCopyPerKey(s: seq<TimedOrder>, landed: set<OrderId>, i: nat, j: nat)
    requires i < j < |s| && Survives(s, landed, i) && Survives(s, landed, j)
    requires s[i].order.key.Some? && s[j].order.key == s[i].order.key
    ensures s[j].order.id in landed
  {
  }

  // ---------------------------------------------------------------------------
  // Snapshots of the orders live at a time

  datatype TimedCommand = TimedCommand(timestamp: nat, command: Command)

  predicate Earlier(a: TimedCommand, b: TimedCommand) {
    a.timestamp <= b.timestamp
  }

  predicate IsOrder(c: TimedCommand, id: OrderId) {
    c.command.NewOrder? && c.command.order.id == id
  }

  ghost predicate Occurs(commands: seq<TimedCommand>, id: OrderId) {
    exists i :: 0 <= i < |commands| && IsOrder(commands[i], id)
  }

  /** The commands of a sorted list that are not after the cutoff are its first `n`. */
  ghost predicate IsCut(commands: seq<TimedCommand>, cutoff: nat, n: nat) {
    && n <= |commands|
    && (forall i :: 0 <= i < n ==> commands[i].timestamp <= cutoff)
    && (forall i :: n <= i < |commands| ==> commands[i].timestamp > cutoff)
  }

  function Untimed(commands: seq<TimedCommand>): seq<Command> {
    seq(|commands|, i requires 0 <= i < |commands| => commands[i].command)
  }

  /** When each order last arrived. */
  function Times(commands: seq<TimedCommand>): map<OrderId, nat> {
    if commands == [] then map[]
    else
      var n := |commands| - 1;
      var t := Times(commands[..n]);
      if commands[n].command.NewOrder? then t[commands[n].command.order.id := commands[n].timestamp] else t
  }

  lemma RunStart(commands: seq<TimedCommand>)
    ensures Replay(Untimed(commands[..0])) == Replay([]) && Times(commands[..0]) == map[]
  {
    assert Untimed(commands[..0]) == [];
  }

  lemma RunStep(commands: seq<TimedCommand>, n: nat)
    requires n < |commands|
    ensures Replay(Untimed(commands[..n + 1])) == Apply(Replay(Untimed(commands[..n])), commands[n].command)
    ensures Times(commands[..n + 1]) ==
              if commands[n].command.NewOrder?
              then Times(commands[..n])[commands[n].command.order.id := commands[n].timestamp]
              else Times(commands[..n])
  {
    assert commands[..n + 1][..n] == commands[..n];
    assert Untimed(commands[..n + 1])[..n] == Untimed(commands[..n]);
  }

  /** In a sorted list the recorded time of an order is that of its latest command. */
  lemma {:induction false} TimesAreLatest(commands: seq<TimedCommand>, id: OrderId)
    requires Sorted(Earlier, commands)
    ensures id in Times(commands) <==> Occurs(commands, id)
    ensures forall i :: 0 <= i < |commands| && IsOrder(commands[i], id) ==> commands[i].timestamp <= Times(commands)[id]
    ensures Occurs(commands, id) ==>
              exists i :: 0 <= i < |commands| && IsOrder(commands[i], id)
                       && commands[i].timestamp == Times(commands)[id]
  {
    if commands != [] {
      var n := |commands| - 1;
      var rest := commands[..n];
      TimesAreLatest(rest, id);
      if i :| 0 <= i < n && IsOrder(commands[i], id) {
        assert IsOrder(rest[i], id);
      }
      if IsOrder(commands[n], id) {
        assert Occurs(commands, id) && Times(commands)[id] == commands[n].timestamp;
      } else if i :| 0 <= i < |rest| && IsOrder(rest[i], id) && rest[i].timestamp == Times(rest)[id] {
        assert IsOrder(commands[i], id);
      }
    }
  }

  /** The live orders with their times, each once, in any sequence. */
  ghost predicate IsListing(orders: map<OrderId, Order>, times: map<OrderId, nat>, s: seq<TimedOrder>) {
    && (forall i :: 0 <= i < |s| ==>
          && s[i].order.id in orders && s[i].order.id in times
          && s[i] == TimedOrder(times[s[i].order.id], orders[s[i].order.id]))
    && DistinctIds(s)
    && (forall id :: id in orders ==> exists i :: 0 <= i < |s| && s[i].order.id == id)
  }

  method List(orders: map<OrderId, Order>, times: map<OrderId, nat>) returns (s: seq<TimedOrder>)
    requires orders.Keys <= times.Keys && forall id :: id in orders ==> orders[id].id == id
    ensures IsListing(orders, times, s)
  {
    s := [];
    var rest := orders.Keys;
    while rest != {}
      invariant rest <= orders.Keys
      invariant forall i :: 0 <= i < |s| ==>
                  && s[i].order.id in orders && s[i].order.id !in rest && s[i].order.id in times
                  && s[i] == TimedOrder(times[s[i].order.id], orders[s[i].order.id])
      invariant DistinctIds(s)
      invariant forall id :: id in orders && id !in rest ==> exists i :: 0 <= i < |s| && s[i].order.id == id
      decreases |rest|
    {
      var id: OrderId :| id in rest;
      ghost var before := s;
      s := s + [TimedOrder(times[id], orders[id])];
      rest := rest - {id};
      assert s[|before|].order.id == id && forall i :: 0 <= i < |before| ==> s[i] == before[i];
    }
  }

  // ---------------------------------------------------------------------------
  // Snapshots that include the landed orders

  /** The first order command of each of the ids, in sequence. */
  function FirstOrders(commands: seq<TimedCommand>, ids: set<OrderId>): seq<TimedOrder> {
    if commands == [] then []
    else
      var c := commands[0];
      if c.command.NewOrder? && c.command.order.id in ids then
        [TimedOrder(c.timestamp, c.command.order)] + FirstOrders(commands[1..], ids - {c.command.order.id})
      else FirstOrders(commands[1..], ids)
  }

  lemma FirstOrdersStep(commands: seq<TimedCommand>, rest: set<OrderId>, n: nat, included: seq<TimedOrder>)
    requires n < |commands|
    ensures var c := commands[n];
            included + FirstOrders(commands[n..], rest) ==
              if c.command.NewOrder? && c.command.order.id in rest
              then included + [TimedOrder(c.timestamp, c.command.order)]
                   + FirstOrders(commands[n + 1..], rest - {c.command.order.id})
              else included + FirstOrders(commands[n + 1..], rest)
  {
    assert commands[n..][0] == commands[n] && commands[n..][1..] == commands[n + 1..];
  }

  lemma NoMoreOrders(commands: seq<TimedCommand>, rest: set<OrderId>, included: seq<TimedOrder>)
    ensures included + FirstOrders(commands[|commands|..], rest) == included
  {
  }

  /** Command `n` is the first order command of one of the ids. */
  ghost predicate Lands(commands: seq<TimedCommand>, ids: set<OrderId>, n: nat)
    requires n < |commands|
  {
    && commands[n].command.NewOrder? && commands[n].command.order.id in ids
    && forall m :: 0 <= m < n ==> !IsOrder(commands[m], commands[n].command.order.id)
  }

  /** The orders of the commands at `places`, in sequence. */
  ghost predicate OrdersAt(commands: seq<TimedCommand>, places: seq<nat>, orders: seq<TimedOrder>) {
    && |places| == |orders|
    && (forall i :: 0 <= i < |orders| ==>
          && places[i] < |commands| && commands[places[i]].command.NewOrder?
          && orders[i] == TimedOrder(commands[places[i]].timestamp, commands[places[i]].command.order))
    && (forall i, j :: 0 <= i < j < |orders| ==> places[i] < places[j])
  }

  /** The landed orders among the first `n` commands. */
  ghost predicate LandedBy(commands: seq<TimedCommand>, ids: set<OrderId>, n: nat, lands: seq<nat>,
                           included: seq<TimedOrder>)
    requires n <= |commands|
  {
    OrdersAt(commands, lands, included) && forall m: nat :: m in lands <==> m < n && Lands(commands, ids, m)
  }

  lemma LandedStart(commands: seq<TimedCommand>, ids: set<OrderId>)
    ensures LandedBy(commands, ids, 0, [], [])
  {
  }

  lemma LandedStep(commands: seq<TimedCommand>, ids: set<OrderId>, n: nat, lands: seq<nat>, included: seq<TimedOrder>)
    requires n < |commands| && LandedBy(commands, ids, n, lands, included)
    ensures !Lands(commands, ids, n) ==> LandedBy(commands, ids, n + 1, lands, included)
    ensures Lands(commands, ids, n) ==>
              var o := TimedOrder(commands[n].timestamp, commands[n].command.order);
              LandedBy(commands, ids, n + 1, lands + [n], included + [o])
  {
    assert Lands(commands, ids, n) ==> commands[n].command.NewOrder?;
    hide Lands;
    assert forall i :: 0 <= i < |lands| ==> lands[i] in lands;
  }

  lemma LandedEnd(commands: seq<TimedCommand>, ids: set<OrderId>, lands: seq<nat>, included: seq<TimedOrder>)
    requires LandedBy(commands, ids, |commands|, lands, included)
    ensures OrdersAt(commands, lands, included)
    ensures forall n: nat :: n < |commands| ==> (n in lands <==> Lands(commands, ids, n))
  {
  }

  lemma OccursCons(commands: seq<TimedCommand>, id: OrderId)
    requires commands != []
    ensures Occurs(commands, id) <==> IsOrder(commands[0], id) || Occurs(commands[1..], id)
  {
  }

  /** The orders of `s` with a given id. */
  function WithId(s: seq<TimedOrder>, id: OrderId): seq<TimedOrder> {
    if s == [] then [] else (if s[0].order.id == id then [s[0]] else []) + WithId(s[1..], id)
  }

  lemma {:induction false} WithIdAppend(s: seq<TimedOrder>, t: seq<TimedOrder>, id: OrderId)
    ensures WithId(s + t, id) == WithId(s, id) + WithId(t, id)
  {
    if s == [] {
      assert s + t == t;
    } else {
      WithIdAppend(s[1..], t, id);
      assert (s + t)[1..] == s[1..] + t && (s + t)[0] == s[0];
      var first := if s[0].order.id == id then [s[0]] else [];
      assert first + (WithId(s[1..], id) + WithId(t, id)) == first + WithId(s[1..], id) + WithId(t, id);
    }
  }

  /** The first of the commands with an id. */
  ghost predicate IsFirst(commands: seq<TimedCommand>, id: OrderId, o: TimedOrder) {
    exists i :: 0 <= i < |commands| && IsOrder(commands[i], id)
             && (forall j :: 0 <= j < i ==> !IsOrder(commands[j], id))
             && o == TimedOrder(commands[i].timestamp, commands[i].command.order)
  }

  /** Each id with an order command is there exactly once, as its first command has it; other ids are not there. */
  lemma {:induction false} FirstOrdersOnce(commands: seq<TimedCommand>, ids: set<OrderId>, id: OrderId)
    ensures id in ids && Occurs(commands, id) ==>
              |WithId(FirstOrders(commands, ids), id)| == 1
              && IsFirst(commands, id, WithId(FirstOrders(commands, ids), id)[0])
    ensures id !in ids || !Occurs(commands, id) ==> WithId(FirstOrders(commands, ids), id) == []
  {
    if commands != [] {
      var c := commands[0];
      var taken := c.command.NewOrder? && c.command.order.id in ids;
      var rest := if taken then ids - {c.command.order.id} else ids;
      FirstOrdersOnce(commands[1..], rest, id);
      OccursCons(commands, id);
      if taken {
        var o := TimedOrder(c.timestamp, c.command.order);
        WithIdAppend([o], FirstOrders(commands[1..], rest), id);
        assert [o][1..] == [];
        if c.command.order.id == id {
          assert IsFirst(commands, id, o);
        }
      }
      if !IsOrder(c, id) {
        forall o | IsFirst(commands[1..], id, o)
          ensures IsFirst(commands, id, o)
        {
          FirstShifts(commands, id, o);
        }
      }
    }
  }

  lemma FirstShifts(commands: seq<TimedCommand>, id: OrderId, o: TimedOrder)
    requires commands != [] && !IsOrder(commands[0], id) && IsFirst(commands[1..], id, o)
    ensures IsFirst(commands, id, o)
  {
  }

  /** In a sorted list the first command with an id is the earliest. */
  lemma FirstIsEarliest(commands: seq<TimedCommand>, id: OrderId, o: TimedOrder, i: nat)
    requires Sorted(Earlier, commands) && IsFirst(commands, id, o) && i < |commands| && IsOrder(commands[i], id)
    ensures o.timestamp <= commands[i].timestamp
  {
  }

  function Keys(orders: seq<TimedOrder>): set<Key> {
    set i | 0 <= i < |orders| && orders[i].order.key.Some? :: orders[i].order.key.value
  }

  /** Neither landed nor replaced by a landed order. */
  predicate Unrelated(o: TimedOrder, ids: set<OrderId>, keys: set<Key>) {
    o.order.id !in ids && (o.order.key.Some? ==> o.order.key.value !in keys)
  }

  function UnrelatedFlags(s: seq<TimedOrder>, ids: set<OrderId>, keys: set<Key>): seq<bool> {
    seq(|s|, i requires 0 <= i < |s| => Unrelated(s[i], ids, keys))
  }

  class FullSlotBlockData {
    const commands: seq<TimedCommand>
    const landed: Option<seq<OrderId>>

    ghost predicate Valid() {
      Sorted(Earlier, commands)
    }

    /** Sorts the commands by time; those of the same time keep their sequence. */
    constructor (commands: seq<TimedCommand>, landed: Option<seq<OrderId>>)
      ensures Valid() && multiset(this.commands) == multiset(commands)
      ensures forall c: TimedCommand :: Alike(Earlier, c, this.commands) == Alike(Earlier, c, commands)
      ensures this.landed == landed
    {
      this.commands := Sort(Earlier, commands);
      this.landed := landed;
      SortSorted(Earlier, commands);
      forall c: TimedCommand
        ensures Alike(Earlier, c, Sort(Earlier, commands)) == Alike(Earlier, c, commands)
      {
        SortStable(Earlier, commands, c);
      }
    }

    ghost predicate IsSnapshot(cutoff: nat, s: seq<TimedOrder>) {
      exists n: nat :: IsCut(commands, cutoff, n)
                    && IsListing(Replay(Untimed(commands[..n])).orders, Times(commands[..n]), s)
    }

    /** Runs the commands up to the cutoff and lists the orders then live. */
    method Snapshot(cutoff: nat) returns (s: seq<TimedOrder>)
      requires Valid()
      ensures IsSnapshot(cutoff, s)
    {
      hide Replay, Apply, Times, Untimed, IsListing;
      RunStart(commands);
      var manager := new OrderReplacementManager();
      var times: map<OrderId, nat> := map[];
      var n := 0;
      while n < |commands| && commands[n].timestamp <= cutoff
        invariant n <= |commands|
        invariant forall i :: 0 <= i < n ==> commands[i].timestamp <= cutoff
        invariant manager.Now() == Replay(Untimed(commands[..n])) && times == Times(commands[..n])
        invariant fresh(manager)
      {
        RunStep(commands, n);
        match commands[n].command {
          case NewOrder(order) =>
            times := times[order.id := commands[n].timestamp];
            manager.InsertOrder(order);
          case CancelShareBundle(bundle) =>
            manager.RemoveShareBundle(bundle);
          case CancelBundle(bundle, sequence) =>
            manager.RemoveBundle(bundle, sequence);
        }
        n := n + 1;
      }
      TimesCover(commands[..n]);
      ReplayConsistent(Untimed(commands[..n]));
      s := List(manager.orders, times);
    }

    /** The snapshot with the landed orders in place of everything they are or replace. */
    method SnapshotIncludingLanded(cutoff: nat)
      returns (r: Option<seq<TimedOrder>>, ghost snapshot: seq<TimedOrder>, ghost keeps: seq<nat>,
               ghost lands: seq<nat>)
      requires Valid()
      ensures IsSnapshot(cutoff, snapshot)
      ensures landed.Some? && r.Some? ==> |keeps| + |lands| == |r.value|
      ensures landed.Some? && r.Some? ==>
                var kept, included := r.value[..|keeps|], r.value[|keeps|..];
                && Picks(snapshot, keeps, kept) && OrdersAt(commands, lands, included)
                && (forall n: nat :: n < |commands| ==>
                      (n in lands <==> Lands(commands, (set id | id in landed.value), n)))
                && (forall p: nat :: p < |snapshot| ==>
                      (p in keeps <==>
                         && snapshot[p].order.id !in landed.value
                         && (snapshot[p].order.key.Some? ==>
                               forall i :: 0 <= i < |included| ==> included[i].order.key != snapshot[p].order.key)))
      ensures landed.None? ==> r == Some(snapshot)
      ensures landed.Some? ==> (r.Some? <==> forall id :: id in landed.value ==> Occurs(commands, id))
      ensures landed.Some? && r.Some? ==> r.value == WithLanded(commands, (set id | id in landed.value), snapshot)
    {
      var res := Snapshot(cutoff);
      snapshot := res;
      if landed.None? {
        return Some(res), snapshot, [], [];
      }
      var ids := set id | id in landed.value;
      var included;
      included, lands := Gather(ids);
      if included.None? {
        return None, snapshot, [], [];
      }
      var kept;
      kept, keeps := Retain(res, ids, Keys(included.value));
      r := Some(kept + included.value);
      assert r.value[..|keeps|] == kept && r.value[|keeps|..] == included.value;
    }

    /** The first order command of each id, if every id has one. */
    method Gather(ids: set<OrderId>) returns (r: Option<seq<TimedOrder>>, ghost lands: seq<nat>)
      ensures r.Some? <==> forall id :: id in ids ==> Occurs(commands, id)
      ensures r.Some? ==> OrdersAt(commands, lands, r.value)
      ensures forall n: nat :: n < |commands| ==> (n in lands <==> Lands(commands, ids, n))
      ensures r.Some? ==> r.value == FirstOrders(commands, ids)
    {
      hide LandedBy, FirstOrders;
      var rest := ids;
      var included: seq<TimedOrder> := [];
      lands := [];
      LandedStart(commands, ids);
      assert commands[0..] == commands;
      for n := 0 to |commands|
        invariant FirstOrders(commands, ids) == included + FirstOrders(commands[n..], rest)
        invariant forall id :: id in rest <==> id in ids && forall m :: 0 <= m < n ==> !IsOrder(commands[m], id)
        invariant LandedBy(commands, ids, n, lands, included)
      {
        var c := commands[n];
        FirstOrdersStep(commands, rest, n, included);
        LandedStep(commands, ids, n, lands, included);
        if c.command.NewOrder? && c.command.order.id in rest {
          assert Lands(commands, ids, n);
          rest := rest - {c.command.order.id};
          included := included + [TimedOrder(c.timestamp, c.command.order)];
          lands := lands + [n];
        } else {
          assert !Lands(commands, ids, n);
        }
      }
      NoMoreOrders(commands, rest, included);
      LandedEnd(commands, ids, lands, included);
      return if rest != {} then None else Some(included), lands;
    }

    method Retain(snapshot: seq<TimedOrder>, ids: set<OrderId>, keys: set<Key>)
      returns (kept: seq<TimedOrder>, ghost keeps: seq<nat>)
      ensures kept == Select(snapshot, UnrelatedFlags(snapshot, ids, keys))
      ensures Picks(snapshot, keeps, kept)
      ensures forall p: nat :: p < |snapshot| ==>
                (p in keeps <==>
                   && snapshot[p].order.id !in ids
                   && (snapshot[p].order.key.Some? ==> snapshot[p].order.key.value !in keys))
    {
      kept := [];
      ghost var flags := UnrelatedFlags(snapshot, ids, keys);
      for n := 0 to |snapshot|
        invariant kept == Select(snapshot[..n], flags[..n])
      {
        var o := snapshot[n];
        assert snapshot[..n + 1][..n] == snapshot[..n] && flags[..n + 1][..n] == flags[..n];
        if Unrelated(o, ids, keys) {
          kept := kept + [o];
        }
      }
      assert snapshot[..|snapshot|] == snapshot && flags[..|snapshot|] == flags;
      keeps := SelectPlaces(snapshot, flags);
    }
  }

  /** No live order lacks a time. */
  lemma TimesCover(commands: seq<TimedCommand>)
    requires Sorted(Earlier, commands)
    ensures Replay(Untimed(commands)).orders.Keys <= Times(commands).Keys
  {
    forall id | id in Replay(Untimed(commands)).orders
      ensures id in Times(commands)
    {
      ReplayConsistent(Untimed(commands));
      LiveOrdersArrived(Untimed(commands), id);
      var i :| 0 <= i < |commands| && Untimed(commands)[i] == NewOrder(Replay(Untimed(commands)).orders[id]);
      assert IsOrder(commands[i], id);
      TimesAreLatest(commands, id);
    }
  }

  /** What is left of a snapshot, and the landed orders. */
  function WithLanded(commands: seq<TimedCommand>, ids: set<OrderId>, snapshot: seq<TimedOrder>): seq<TimedOrder> {
    var included := FirstOrders(commands, ids);
    Select(snapshot, UnrelatedFlags(snapshot, ids, Keys(included))) + included
  }

  /** Every landed order is there once, as its earliest command has it, and no other order has its key. */
  lemma LandedSnapshot(commands: seq<TimedCommand>, ids: set<OrderId>, snapshot: seq<TimedOrder>, id: OrderId)
    requires Sorted(Earlier, commands) && id in ids && Occurs(commands, id)
    ensures var r := WithLanded(commands, ids, snapshot);
            && |WithId(r, id)| == 1
            && var o := WithId(r, id)[0];
            && IsFirst(commands, id, o)
            && (forall i :: 0 <= i < |commands| && IsOrder(commands[i], id) ==> o.timestamp <= commands[i].timestamp)
            && (forall k :: k in r && k.order.id !in ids && o.order.key.Some? ==> k.order.key != o.order.key)
  {
    var included := FirstOrders(commands, ids);
    var flags := UnrelatedFlags(snapshot, ids, Keys(included));
    var kept := Select(snapshot, flags);
    FirstOrdersOnce(commands, ids, id);
    WithIdAppend(kept, included, id);
    KeptUnrelated(snapshot, ids, Keys(included));
    NoneWithId(kept, id);
    var o := WithId(included, id)[0];
    forall i | 0 <= i < |commands| && IsOrder(commands[i], id)
      ensures o.timestamp <= commands[i].timestamp
    {
      FirstIsEarliest(commands, id, o, i);
    }
    WithIdIn(included, id);
    assert o in included;
    IncludedLanded(commands, ids);
  }

  lemma KeptUnrelated(snapshot: seq<TimedOrder>, ids: set<OrderId>, keys: set<Key>)
    ensures forall k :: k in Select(snapshot, UnrelatedFlags(snapshot, ids, keys)) <==>
              k in snapshot && Unrelated(k, ids, keys)
  {
    forall k: TimedOrder
      ensures k in Select(snapshot, UnrelatedFlags(snapshot, ids, keys)) <==> k in snapshot && Unrelated(k, ids, keys)
    {
      SelectElements(snapshot, UnrelatedFlags(snapshot, ids, keys), k);
    }
  }

  lemma {:induction false} IncludedLanded(commands: seq<TimedCommand>, ids: set<OrderId>)
    ensures forall o :: o in FirstOrders(commands, ids) ==> o.order.id in ids
  {
    if commands != [] {
      var c := commands[0].command;
      IncludedLanded(commands[1..], if c.NewOrder? then ids - {c.order.id} else ids);
      IncludedLanded(commands[1..], ids);
    }
  }

  /** Orders of the snapshot that did not land keep their copies unless a landed order has their key. */
  lemma OthersKept(commands: seq<TimedCommand>, ids: set<OrderId>, snapshot: seq<TimedOrder>, o: TimedOrder)
    requires o.order.id !in ids
    ensures var included := FirstOrders(commands, ids);
            var r := WithLanded(commands, ids, snapshot);
            multiset(r)[o] == if Unrelated(o, ids, Keys(included)) then multiset(snapshot)[o] else 0
  {
    var included := FirstOrders(commands, ids);
    var flags := UnrelatedFlags(snapshot, ids, Keys(included));
    SelectCopies(snapshot, flags, o);
    SelectElements(snapshot, flags, o);
    IncludedLanded(commands, ids);
  }

  lemma {:induction false} NoneWithId(s: seq<TimedOrder>, id: OrderId)
    requires forall o :: o in s ==> o.order.id != id
    ensures WithId(s, id) == []
  {
    if s != [] {
      NoneWithId(s[1..], id);
    }
  }

  lemma {:induction false} WithIdIn(s: seq<TimedOrder>, id: OrderId)
    ensures forall o :: o in WithId(s, id) ==> o in s
  {
    if s != [] {
      WithIdIn(s[1..], id);
    }
  }

  ghost predicate DistinctIds(s: seq<TimedOrder>) {
    forall i, j :: 0 <= i < j < |s| ==> s[i].order.id != s[j].order.id
  }

  lemma {:induction false} SelectDistinct(s: seq<TimedOrder>, flags: seq<bool>)
    requires |s| == |flags| && DistinctIds(s)
    ensures DistinctIds(Select(s, flags))
  {
    if s != [] {
      var n := |s| - 1;
      SelectDistinct(s[..n], flags[..n]);
      var rest := Select(s[..n], flags[..n]);
      forall i | 0 <= i < |rest|
        ensures rest[i].order.id != s[n].order.id
      {
        SelectElements(s[..n], flags[..n], rest[i]);
      }
    }
  }

  lemma {:induction false} DistinctWithId(s: seq<TimedOrder>, id: OrderId)
    requires DistinctIds(s)
    ensures |WithId(s, id)| <= 1
  {
    if s != [] {
      if s[0].order.id == id {
        NoneWithId(s[1..], id);
      } else {
        DistinctWithId(s[1..], id);
      }
    }
  }

  /** A snapshot with the landed orders never has an id twice. */
  lemma OnePerId(commands: seq<TimedCommand>, ids: set<OrderId>, snapshot: seq<TimedOrder>, id: OrderId)
    requires DistinctIds(snapshot)
    ensures |WithId(WithLanded(commands, ids, snapshot), id)| <= 1
  {
    var included := FirstOrders(commands, ids);
    var flags := UnrelatedFlags(snapshot, ids, Keys(included));
    var kept := Select(snapshot, flags);
    WithIdAppend(kept, included, id);
    FirstOrdersOnce(commands, ids, id);
    KeptUnrelated(snapshot, ids, Keys(included));
    if id in ids {
      NoneWithId(kept, id);
    } else {
      SelectDistinct(snapshot, flags);
      DistinctWithId(kept, id);
    }
  }
}
