/**
  Instances: a parent block that the calculator accepts with every address and slot in use, and a calculation given
  up half-way after which the next one computes a wrong root.
 */
module Instances {
  import opened Wrappers
  import opened SparseTrie
  import opened PatchedTries
  import opened RootHash

  // ---------------------------------------------------------------------------
  // Hash paths that do not collide

  function Pow16(n: nat): nat {
    if n == 0 then 1 else 16 * Pow16(n - 1)
  }

  /** The last `len` digits of a number in base 16, the lowest first. */
  function Digits(n: nat, len: nat): Nibbles {
    if len == 0 then [] else [n % 16] + Digits(n / 16, len - 1)
  }

  lemma {:induction false} DigitsPath(n: nat, len: nat)
    ensures IsPath(Digits(n, len), len)
  {
    if len > 0 {
      DigitsPath(n / 16, len - 1);
    }
  }

  lemma {:induction false} DigitsApart(m: nat, n: nat, len: nat)
    requires m < Pow16(len) && n < Pow16(len) && Digits(m, len) == Digits(n, len)
    ensures m == n
  {
    if len > 0 {
      var a, b := Digits(m, len), Digits(n, len);
      assert m % 16 == a[0] == b[0] == n % 16;
      assert Digits(m / 16, len - 1) == a[1..] == b[1..] == Digits(n / 16, len - 1);
      DigitsApart(m / 16, n / 16, len - 1);
    }
  }

  lemma {:induction false} Pow16Sum(m: nat, n: nat)
    ensures Pow16(m + n) == Pow16(m) * Pow16(n)
  {
    if m > 0 {
      Pow16Sum(m - 1, n);
    }
  }

  lemma SixtyFourDigits()
    ensures Pow16(KEY_NIBBLES) == 0x1_0000000000000000_0000000000000000_0000000000000000_0000000000000000
  {
    assert Pow16(2) == 0x100;
    hide Pow16;
    Pow16Twice(2, 0x100);
    Pow16Twice(4, 0x1_0000);
    Pow16Twice(8, 0x1_0000_0000);
    Pow16Twice(16, 0x1_0000000000000000);
    Pow16Twice(32, 0x1_0000000000000000_0000000000000000);
  }

  lemma Pow16Twice(n: nat, x: nat)
    requires Pow16(n) == x
    ensures Pow16(2 * n) == x * x
  {
    Pow16Sum(n, n);
  }

  // ---------------------------------------------------------------------------
  // A parent block

  function SomeHashing(): Hashing {
    Hashing((key, value) => [1], (key, child) => [2], children => [3], rlp => rlp)
  }

  function SlotCodec(): Codec<Slot, Word> {
    Codec((k: Slot) => Digits(k, KEY_NIBBLES), (v: Word) => [v], (k: Slot) => true)
  }

  function AddressCodec(): Codec<Address, TrieAccount> {
    Codec((a: Address) => Digits(a, KEY_NIBBLES), (t: TrieAccount) => [t.nonce, t.balance] + t.storageRoot + t.codeHash,
          (a: Address) => true)
  }

  /** A parent block with empty tries. */
  function EmptyParent(): Parent {
    Parent(SomeHashing(), SlotCodec(), AddressCodec(), a => Null, Null)
  }

  lemma CodecsLawful()
    ensures Lawful(SlotCodec()) && Lawful(AddressCodec())
  {
    SixtyFourDigits();
    forall k: nat
      ensures IsPath(Digits(k, KEY_NIBBLES), KEY_NIBBLES)
    {
      DigitsPath(k, KEY_NIBBLES);
    }
    forall j: Slot, k: Slot | Digits(j, KEY_NIBBLES) == Digits(k, KEY_NIBBLES)
      ensures j == k
    {
      DigitsApart(j, k, KEY_NIBBLES);
    }
    forall a: Address, b: Address | Digits(a, KEY_NIBBLES) == Digits(b, KEY_NIBBLES)
      ensures a == b
    {
      DigitsApart(a, b, KEY_NIBBLES);
    }
  }

  /** There is a parent block that the calculator accepts, together with any outcome on top of it. */
  lemma EmptyParentValid(outcome: Outcome)
    ensures EmptyParent().Valid() && EmptyParent().Covers(outcome)
  {
    CodecsLawful();
  }

  // ---------------------------------------------------------------------------
  // A calculation given up half-way

  ghost const NO_STATE: Map := Contents(Null, KEY_NIBBLES)

  /** A calculation that writes slot 0 and removes slot 1, which the parent does not have: the write took effect. */
  ghost function HalfWay(): State<Slot, Word> {
    var write, removed := Digits(0, KEY_NIBBLES), Digits(1, KEY_NIBBLES);
    State(Trie(Tip(write, 0), [[1]]), map[], map[0 := AppliedOp(Some(1), write, None)], [], [],
          [Insertion(write, [1], 0, 1)], [true], [Deletion(removed, 1)], [false],
          map[0 := Some(1), 1 := None], map[0 := Some(1)], [], [Inserted(0)])
  }

  lemma HalfWayGood()
    ensures Good(SlotCodec(), NO_STATE, HalfWay())
  {
    hide Trie.Valid, Trie.AsMap, Overlay, Lawful, EffectsOk, Digits, Contents;
    CodecsLawful();
    HalfWayTrie();
    HalfWayEffects();
    HalfWayLogged();
    var s := HalfWay();
    assert s.inserts[0].owner == 0 && s.deletes[0].owner == 1;
  }

  lemma HalfWayEffects()
    ensures EffectsOk([Inserted(0)], [], [true], [false])
  {
    assert [Inserted(0)][0] == Inserted(0);
    assert forall i: nat :: Set([true], i) <==> i == 0;
  }

  lemma HalfWayLogged()
    ensures var s := HalfWay(); Logged(SlotCodec(), NO_STATE, s.trie.values, s.current, s.patch)
  {
    hide Digits;
  }

  lemma HalfWayTrie()
    ensures var s := HalfWay(); s.trie.Valid() && s.trie.AsMap() == Overlay(SlotCodec(), NO_STATE, s.patch)
  {
    CodecsLawful();
    var s := HalfWay();
    DigitsPath(0, KEY_NIBBLES);
    var m := Overlay(SlotCodec(), NO_STATE, s.patch);
    forall x
      ensures At(s.trie.AsMap(), x) == At(m, x)
    {
      if x == Digits(0, KEY_NIBBLES) {
        OverlayOwned(SlotCodec(), NO_STATE, s.patch, 0);
      }
    }
    SameMap(s.trie.AsMap(), m);
  }

  lemma HalfWayFails()
    ensures var s := HalfWay();
            && s.trie.Valid() && IsPath(s.deletes[0].key, KEY_NIBBLES)
            && s.trie.DeleteKey(s.deletes[0].key).1.KeyNotFound?
  {
    DigitsPath(0, KEY_NIBBLES);
    DigitsPath(1, KEY_NIBBLES);
    assert Digits(0, KEY_NIBBLES)[0] != Digits(1, KEY_NIBBLES)[0];
  }

  lemma HalfWayUnsettled()
    ensures !Settled(SlotCodec(), NO_STATE, Abandoned(HalfWay()))
  {
    hide Settled, Good, Digits, Trie.Valid, Lawful;
    var s := HalfWay();
    HalfWayGood();
    HalfWayTrie();
    CodecsLawful();
    AbandonedIsSettled(SlotCodec(), NO_STATE, s);
    OverlayOwned(SlotCodec(), NO_STATE, s.patch, 0);
  }

  /** An empty state hashes to the code of the empty string. */
  lemma NoStateRoot()
    ensures RootOf(SomeHashing(), NO_STATE) == [EMPTY_STRING_CODE]
  {
    hide RootOf;
    RootHashIsRootOf(SomeHashing(), Trie(Nil, []));
  }

  /** The removal fails, which ends the calculation; its log is dropped and the trie keeps the write. The next
      calculation wants nothing, has nothing to do, and hashes a trie that is not the parent's. */
  lemma GivenUpHalfWay()
    ensures var s, h := HalfWay(), SomeHashing();
            && Good(SlotCodec(), NO_STATE, s)
            && s.trie.Valid() && IsPath(s.deletes[0].key, KEY_NIBBLES)
            && s.trie.DeleteKey(s.deletes[0].key).1.KeyNotFound?
            && !Settled(SlotCodec(), NO_STATE, Abandoned(s))
            && var next := Cleared(Abandoned(s));
               && next.previous == map[] && AllDone(next) && next.trie.Valid()
               && next.trie.RootHash(h) != RootOf(h, Overlay(SlotCodec(), NO_STATE, next.wanted))
  {
    hide Settled, Good, Digits, Trie.Valid, RootOf, Overlay, Trie.DeleteKey, Lawful;
    HalfWayGood();
    HalfWayFails();
    HalfWayUnsettled();
    NoStateRoot();
    OverlayEmpty<Slot, Word>(SlotCodec(), NO_STATE);
  }
}
