/** Merging the execution traces of consecutive orders: first reads, last writes, total amounts. */
module UsedState {
  import opened Wrappers

  const U256_RANGE: nat := 0x1_0000000000000000_0000000000000000_0000000000000000_0000000000000000

  type U256 = n: nat | n < U256_RANGE

  type Address = nat

  datatype SlotKey = SlotKey(address: Address, key: nat)

  datatype Trace = Trace(
    readSlots: map<SlotKey, U256>, writtenSlots: map<SlotKey, U256>, readBalances: map<Address, U256>,
    received: map<Address, U256>, sent: map<Address, U256>, created: seq<Address>, destructed: seq<Address>)

  const EMPTY := Trace(map[], map[], map[], map[], map[], [], [])

  // ---------------------------------------------------------------------------
  // Merging two traces

  function WrappingAdd(a: U256, b: U256): U256 {
    (a + b) % U256_RANGE
  }

  function Amount(m: map<Address, U256>, k: Address): U256 {
    if k in m then m[k] else 0
  }

  function AddUp(a: map<Address, U256>, b: map<Address, U256>): map<Address, U256> {
    map k | k in a.Keys + b.Keys :: if k in b then WrappingAdd(Amount(a, k), b[k]) else a[k]
  }

  /** `a` with the elements of `b` that are not there yet. */
  function Push(a: seq<Address>, b: seq<Address>): seq<Address> {
    if b == [] then a
    else
      var n := |b| - 1;
      var r := Push(a, b[..n]);
      if b[n] in r then r else r + [b[n]]
  }

  function Append(a: Trace, b: Trace): Trace {
    Trace(b.readSlots + a.readSlots, a.writtenSlots + b.writtenSlots, b.readBalances + a.readBalances,
          AddUp(a.received, b.received), AddUp(a.sent, b.sent), a.created + b.created, Push(a.destructed, b.destructed))
  }

  class UsedStateTrace {
    var readSlots: map<SlotKey, U256>
    var writtenSlots: map<SlotKey, U256>
    var readBalances: map<Address, U256>
    var received: map<Address, U256>
    var sent: map<Address, U256>
    var created: seq<Address>
    var destructed: seq<Address>

    ghost function Now(): Trace
      reads this
    {
      Trace(readSlots, writtenSlots, readBalances, received, sent, created, destructed)
    }

    constructor ()
      ensures Now() == EMPTY
    {
      readSlots, writtenSlots, readBalances, received, sent := map[], map[], map[], map[], map[];
      created, destructed := [], [];
    }

    method AppendTrace(other: UsedStateTrace)
      requires other != this
      modifies this
      ensures Now() == Append(old(Now()), other.Now())
    {
      readSlots := InsertMissing(readSlots, other.readSlots);
      writtenSlots := writtenSlots + other.writtenSlots;
      readBalances := InsertMissing(readBalances, other.readBalances);
      received := AddAmounts(received, other.received);
      sent := AddAmounts(sent, other.sent);
      created := created + other.created;
      destructed := PushMissing(destructed, other.destructed);
    }
  }

  method InsertMissing<K, V>(a: map<K, V>, b: map<K, V>) returns (r: map<K, V>)
    ensures r == b + a
  {
    r := a;
    var rest := b.Keys;
    while rest != {}
      invariant rest <= b.Keys
      invariant r.Keys == a.Keys + (b.Keys - rest)
      invariant forall k :: k in r ==> r[k] == if k in a then a[k] else b[k]
      decreases |rest|
    {
      var k :| k in rest;
      rest := rest - {k};
      if k !in r {
        r := r[k := b[k]];
      }
    }
  }

  lemma AddOne(a: map<Address, U256>, b: map<Address, U256>, k: Address, v: U256)
    requires k !in b
    ensures AddUp(a, b[k := v]) == AddUp(a, b)[k := WrappingAdd(Amount(AddUp(a, b), k), v)]
  {
  }

  method AddAmounts(a: map<Address, U256>, b: map<Address, U256>) returns (r: map<Address, U256>)
    ensures r == AddUp(a, b)
  {
    hide WrappingAdd, AddUp, Amount;
    r := a;
    var rest := b.Keys;
    AddNone(a, b - rest);
    while rest != {}
      invariant rest <= b.Keys
      invariant r == AddUp(a, b - rest)
      decreases |rest|
    {
      var k: Address :| k in rest;
      AddOne(a, b - rest, k, b[k]);
      assert b - (rest - {k}) == (b - rest)[k := b[k]];
      rest := rest - {k};
      r := r[k := WrappingAdd(Amount(r, k), b[k])];
    }
    assert b - rest == b;
  }

  lemma AddNone(a: map<Address, U256>, b: map<Address, U256>)
    requires b.Keys == {}
    ensures AddUp(a, b) == a
  {
  }

  method PushMissing(a: seq<Address>, b: seq<Address>) returns (r: seq<Address>)
    ensures r == Push(a, b)
  {
    r := a;
    for n := 0 to |b|
      invariant r == Push(a, b[..n])
    {
      assert b[..n + 1][..n] == b[..n];
      if b[n] !in r {
        r := r + [b[n]];
      }
    }
    assert b[..|b|] == b;
  }

  // ---------------------------------------------------------------------------
  // Merging is associative

  lemma AddAssociative(x: U256, y: U256, z: U256)
    ensures WrappingAdd(WrappingAdd(x, y), z) == WrappingAdd(x, WrappingAdd(y, z))
  {
    ReduceLeft(x + y, z);
    ReduceLeft(y + z, x);
  }

  lemma ReduceLeft(x: nat, y: nat)
    ensures (x % U256_RANGE + y) % U256_RANGE == (x + y) % U256_RANGE
  {
  }

  lemma AmountAddUp(a: map<Address, U256>, b: map<Address, U256>, k: Address)
    ensures k in AddUp(a, b) <==> k in a || k in b
    ensures Amount(AddUp(a, b), k) == WrappingAdd(Amount(a, k), Amount(b, k))
  {
  }

  lemma AddUpAssociative(a: map<Address, U256>, b: map<Address, U256>, c: map<Address, U256>)
    ensures AddUp(AddUp(a, b), c) == AddUp(a, AddUp(b, c))
  {
    hide WrappingAdd, AddUp;
    var l, r := AddUp(AddUp(a, b), c), AddUp(a, AddUp(b, c));
    forall k: Address
      ensures k in l <==> k in r
      ensures Amount(l, k) == Amount(r, k)
    {
      AmountAddUp(a, b, k);
      AmountAddUp(b, c, k);
      AmountAddUp(AddUp(a, b), c, k);
      AmountAddUp(a, AddUp(b, c), k);
      AddAssociative(Amount(a, k), Amount(b, k), Amount(c, k));
    }
    assert forall k :: k in l ==> l[k] == Amount(l, k) && r[k] == Amount(r, k);
  }

  lemma {:induction false} PushElements(a: seq<Address>, b: seq<Address>, x: Address)
    ensures x in Push(a, b) <==> x in a || x in b
  {
    if b != [] {
      var n := |b| - 1;
      assert b == b[..n] + [b[n]];
      PushElements(a, b[..n], x);
    }
  }

  lemma {:induction false} PushAssociative(a: seq<Address>, b: seq<Address>, c: seq<Address>)
    ensures Push(Push(a, b), c) == Push(a, Push(b, c))
  {
    if c != [] {
      var n := |c| - 1;
      var x, bc := c[n], Push(b, c[..n]);
      PushAssociative(a, b, c[..n]);
      PushElements(b, c[..n], x);
      PushElements(a, bc, x);
      if x !in bc {
        assert (bc + [x])[..|bc|] == bc;
      }
    }
  }

  /** Traces can be merged in any grouping. */
  lemma AppendAssociative(a: Trace, b: Trace, c: Trace)
    ensures Append(Append(a, b), c) == Append(a, Append(b, c))
  {
    hide AddUp, Push;
    AddUpAssociative(a.received, b.received, c.received);
    AddUpAssociative(a.sent, b.sent, c.sent);
    PushAssociative(a.destructed, b.destructed, c.destructed);
    assert a.created + b.created + c.created == a.created + (b.created + c.created);
    MergeAssociative(c.readSlots, b.readSlots, a.readSlots);
    MergeAssociative(a.writtenSlots, b.writtenSlots, c.writtenSlots);
    MergeAssociative(c.readBalances, b.readBalances, a.readBalances);
  }

  lemma MergeAssociative<K, V>(a: map<K, V>, b: map<K, V>, c: map<K, V>)
    ensures (a + b) + c == a + (b + c)
  {
  }

  // ---------------------------------------------------------------------------
  // Merging any list of traces

  function Fold(traces: seq<Trace>): Trace {
    if traces == [] then EMPTY else Append(Fold(traces[..|traces| - 1]), traces[|traces| - 1])
  }

  lemma AppendEmpty(a: Trace)
    ensures Append(a, EMPTY) == a
  {
  }

  /** Merging the merges of two parts merges the whole. */
  lemma {:induction false} FoldSplit(s: seq<Trace>, t: seq<Trace>)
    ensures Fold(s + t) == Append(Fold(s), Fold(t))
  {
    hide Append;
    if t == [] {
      assert s + t == s;
      AppendEmpty(Fold(s));
    } else {
      var n := |t| - 1;
      assert (s + t)[..|s| + n] == s + t[..n];
      FoldSplit(s, t[..n]);
      AppendAssociative(Fold(s), Fold(t[..n]), t[n]);
    }
  }

  /** The value of a key in the first of the maps that has it. */
  ghost predicate IsFirst<K, V>(maps: seq<map<K, V>>, k: K, v: V) {
    exists i :: 0 <= i < |maps| && k in maps[i] && maps[i][k] == v && forall j :: 0 <= j < i ==> k !in maps[j]
  }

  /** The value of a key in the last of the maps that has it. */
  ghost predicate IsLast<K, V>(maps: seq<map<K, V>>, k: K, v: V) {
    exists i :: 0 <= i < |maps| && k in maps[i] && maps[i][k] == v && forall j :: i < j < |maps| ==> k !in maps[j]
  }

  ghost predicate Somewhere<K, V>(maps: seq<map<K, V>>, k: K) {
    exists i :: 0 <= i < |maps| && k in maps[i]
  }

  /** The total of a key, not reduced. */
  function Total(maps: seq<map<Address, U256>>, k: Address): nat {
    if maps == [] then 0 else Total(maps[..|maps| - 1], k) + Amount(maps[|maps| - 1], k)
  }

  function ReadSlots(traces: seq<Trace>): seq<map<SlotKey, U256>> {
    seq(|traces|, i requires 0 <= i < |traces| => traces[i].readSlots)
  }

  function WrittenSlots(traces: seq<Trace>): seq<map<SlotKey, U256>> {
    seq(|traces|, i requires 0 <= i < |traces| => traces[i].writtenSlots)
  }

  function ReadBalances(traces: seq<Trace>): seq<map<Address, U256>> {
    seq(|traces|, i requires 0 <= i < |traces| => traces[i].readBalances)
  }

  function Received(traces: seq<Trace>): seq<map<Address, U256>> {
    seq(|traces|, i requires 0 <= i < |traces| => traces[i].received)
  }

  function Sent(traces: seq<Trace>): seq<map<Address, U256>> {
    seq(|traces|, i requires 0 <= i < |traces| => traces[i].sent)
  }

  function Created(traces: seq<Trace>): seq<Address> {
    if traces == [] then [] else Created(traces[..|traces| - 1]) + traces[|traces| - 1].created
  }

  function Destructed(traces: seq<Trace>): seq<Address> {
    if traces == [] then [] else Destructed(traces[..|traces| - 1]) + traces[|traces| - 1].destructed
  }

  lemma NoneYet<K, V>(k: K)
    ensures !Somewhere<K, V>([], k)
  {
  }

  lemma FirstExtends<K, V>(maps: seq<map<K, V>>, m: map<K, V>, k: K, v: V)
    ensures IsFirst(maps + [m], k, v) <==> IsFirst(maps, k, v) || (!Somewhere(maps, k) && k in m && m[k] == v)
    ensures Somewhere(maps + [m], k) <==> Somewhere(maps, k) || k in m
  {
    var all := maps + [m];
    assert all[|maps|] == m && forall i :: 0 <= i < |maps| ==> all[i] == maps[i];
  }

  lemma LastExtends<K, V>(maps: seq<map<K, V>>, m: map<K, V>, k: K, v: V)
    ensures IsLast(maps + [m], k, v) <==> (k !in m && IsLast(maps, k, v)) || (k in m && m[k] == v)
    ensures Somewhere(maps + [m], k) <==> Somewhere(maps, k) || k in m
  {
    var all := maps + [m];
    assert all[|maps|] == m && forall i :: 0 <= i < |maps| ==> all[i] == maps[i];
  }

  /** A slot that was read has the value of its first read. */
  lemma {:induction false} FoldReads(traces: seq<Trace>, k: SlotKey)
    ensures k in Fold(traces).readSlots <==> Somewhere(ReadSlots(traces), k)
    ensures k in Fold(traces).readSlots ==> IsFirst(ReadSlots(traces), k, Fold(traces).readSlots[k])
  {
    hide AddUp, Push, IsFirst, Somewhere;
    if traces == [] {
      NoneYet<SlotKey, U256>(k);
    } else {
      var n := |traces| - 1;
      var rest, t, end := traces[..n], traces[n], Fold(traces);
      FoldReads(rest, k);
      assert ReadSlots(traces) == ReadSlots(rest) + [t.readSlots];
      FirstExtends(ReadSlots(rest), t.readSlots, k, if k in end.readSlots then end.readSlots[k] else 0);
    }
  }

  /** A slot that was written has the value of its last write. */
  lemma {:induction false} FoldWrites(traces: seq<Trace>, k: SlotKey)
    ensures k in Fold(traces).writtenSlots <==> Somewhere(WrittenSlots(traces), k)
    ensures k in Fold(traces).writtenSlots ==> IsLast(WrittenSlots(traces), k, Fold(traces).writtenSlots[k])
  {
    hide AddUp, Push, IsLast, Somewhere;
    if traces == [] {
      NoneYet<SlotKey, U256>(k);
    } else {
      var n := |traces| - 1;
      var rest, t, end := traces[..n], traces[n], Fold(traces);
      FoldWrites(rest, k);
      assert WrittenSlots(traces) == WrittenSlots(rest) + [t.writtenSlots];
      LastExtends(WrittenSlots(rest), t.writtenSlots, k, if k in end.writtenSlots then end.writtenSlots[k] else 0);
    }
  }

  /** A balance that was read has the value of its first read. */
  lemma {:induction false} FoldBalances(traces: seq<Trace>, k: Address)
    ensures k in Fold(traces).readBalances <==> Somewhere(ReadBalances(traces), k)
    ensures k in Fold(traces).readBalances ==> IsFirst(ReadBalances(traces), k, Fold(traces).readBalances[k])
  {
    hide AddUp, Push, IsFirst, Somewhere;
    if traces == [] {
      NoneYet<Address, U256>(k);
    } else {
      var n := |traces| - 1;
      var rest, t, end := traces[..n], traces[n], Fold(traces);
      FoldBalances(rest, k);
      assert ReadBalances(traces) == ReadBalances(rest) + [t.readBalances];
      FirstExtends(ReadBalances(rest), t.readBalances, k, if k in end.readBalances then end.readBalances[k] else 0);
    }
  }

  function FoldUp(maps: seq<map<Address, U256>>): map<Address, U256> {
    if maps == [] then map[] else AddUp(FoldUp(maps[..|maps| - 1]), maps[|maps| - 1])
  }

  lemma {:induction false} FoldUpTotals(maps: seq<map<Address, U256>>, k: Address)
    ensures k in FoldUp(maps) <==> Somewhere(maps, k)
    ensures Amount(FoldUp(maps), k) == Total(maps, k) % U256_RANGE
  {
    hide AddUp, Somewhere, Amount;
    if maps == [] {
      NoneYet<Address, U256>(k);
      assert Amount(map[], k) == 0 by {
        AmountOfNone(k);
      }
    } else {
      var n := |maps| - 1;
      var rest, m := maps[..n], maps[n];
      FoldUpTotals(rest, k);
      assert maps == rest + [m];
      FirstExtends(rest, m, k, 0);
      AmountAddUp(FoldUp(rest), m, k);
      ReduceLeft(Total(rest, k), Amount(m, k));
    }
  }

  lemma AmountOfNone(k: Address)
    ensures Amount(map[], k) == 0
  {
  }

  lemma {:induction false} FoldAddsUp(traces: seq<Trace>)
    ensures Fold(traces).received == FoldUp(Received(traces)) && Fold(traces).sent == FoldUp(Sent(traces))
  {
    hide AddUp, Push;
    if traces != [] {
      var n := |traces| - 1;
      FoldAddsUp(traces[..n]);
      assert Received(traces)[..n] == Received(traces[..n]) && Sent(traces)[..n] == Sent(traces[..n]);
    }
  }

  /** Amounts are the totals of what was received and sent, reduced to 256 bits. */
  lemma FoldAmounts(traces: seq<Trace>, k: Address)
    ensures k in Fold(traces).received <==> Somewhere(Received(traces), k)
    ensures Amount(Fold(traces).received, k) ==
              Total(Received(traces), k) % 0x1_0000000000000000_0000000000000000_0000000000000000_0000000000000000
    ensures k in Fold(traces).sent <==> Somewhere(Sent(traces), k)
    ensures Amount(Fold(traces).sent, k) ==
              Total(Sent(traces), k) % 0x1_0000000000000000_0000000000000000_0000000000000000_0000000000000000
  {
    FoldAddsUp(traces);
    FoldUpTotals(Received(traces), k);
    FoldUpTotals(Sent(traces), k);
  }

  // ---------------------------------------------------------------------------
  // Contracts created and destructed

  /** `i` is where `x` first occurs. */
  ghost predicate FirstAt(s: seq<Address>, x: Address, i: nat) {
    i < |s| && s[i] == x && x !in s[..i]
  }

  /** The elements of `s`, each once, by first occurrence. */
  ghost predicate ByFirstOccurrence(s: seq<Address>, d: seq<Address>) {
    && (forall x :: x in d <==> x in s)
    && (forall i, j, a: nat, b: nat :: 0 <= i < j < |d| && FirstAt(s, d[i], a) && FirstAt(s, d[j], b) ==> a < b)
  }

  lemma {:induction false} PushFromEmpty(s: seq<Address>)
    ensures ByFirstOccurrence(s, Push([], s))
    ensures forall i, j :: 0 <= i < j < |Push([], s)| ==> Push([], s)[i] != Push([], s)[j]
  {
    if s != [] {
      var n := |s| - 1;
      var rest, d := s[..n], Push([], s[..n]);
      PushFromEmpty(rest);
      assert s == rest + [s[n]];
      forall x, a: nat | FirstAt(s, x, a)
        ensures a < n ==> FirstAt(rest, x, a)
        ensures x in rest ==> a < n
      {
        if a < n {
          assert s[..a] == rest[..a];
        } else {
          assert s[..a] == rest;
        }
      }
    }
  }

  lemma {:induction false} FoldDestructedIsPush(traces: seq<Trace>)
    ensures Fold(traces).destructed == Push([], Destructed(traces))
    ensures Fold(traces).created == Created(traces)
  {
    if traces != [] {
      var n := |traces| - 1;
      FoldDestructedIsPush(traces[..n]);
      PushAppend([], Destructed(traces[..n]), traces[n].destructed);
    }
  }

  lemma {:induction false} PushAppend(a: seq<Address>, b: seq<Address>, c: seq<Address>)
    ensures Push(a, b + c) == Push(Push(a, b), c)
  {
    if c == [] {
      assert b + c == b;
    } else {
      var n := |c| - 1;
      assert (b + c)[..|b| + n] == b + c[..n];
      PushAppend(a, b, c[..n]);
    }
  }

  /** Created contracts are listed as they came; destructed ones once each, by first occurrence. */
  lemma FoldContracts(traces: seq<Trace>)
    ensures Fold(traces).created == Created(traces)
    ensures ByFirstOccurrence(Destructed(traces), Fold(traces).destructed)
    ensures forall i, j :: 0 <= i < j < |Fold(traces).destructed| ==>
              Fold(traces).destructed[i] != Fold(traces).destructed[j]
  {
    FoldDestructedIsPush(traces);
    PushFromEmpty(Destructed(traces));
  }
}
