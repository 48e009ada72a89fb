/**
  A trie kept as "parent state plus the changes of the last outcome", with an undo log.
  The storage tries and the account trie of the calculator both follow this protocol.

  A calculation stages the changes it wants, turns what is left of the previous
  calculation into reverts, processes everything (any number of times, since nodes may be
  missing) and commits. `Commit` leaves the trie equal to the parent state overlaid with
  what was wanted, and a log that can undo it exactly.
 */
module PatchedTries {
  import opened Wrappers
  import opened SparseTrie
  import opened LoadingRounds
  import HashedTries
  import TrieRoots

  /** How owners (slots, addresses) become trie keys and values become trie bytes, and which owners are in use. */
  datatype Codec<!K, !V> = Codec(keyOf: K -> Nibbles, encode: V -> Bytes, inUse: K -> bool)

  /** Keys are hash paths and the hashes of the owners in use do not collide. */
  ghost predicate Lawful<K(!new), V>(c: Codec<K, V>) {
    && (forall k :: IsPath(c.keyOf(k), KEY_NIBBLES))
    && (forall j, k :: c.inUse(j) && c.inUse(k) && c.keyOf(j) == c.keyOf(k) ==> j == k)
  }

  /** A patch of owners in use. */
  ghost predicate InUse<K, V>(c: Codec<K, V>, patch: map<K, Option<V>>) {
    forall k :: k in patch ==> c.inUse(k)
  }

  ghost predicate Owned<K, V>(c: Codec<K, V>, patch: map<K, Option<V>>, x: Nibbles) {
    exists k :: k in patch && c.keyOf(k) == x
  }

  ghost function Owner<K, V>(c: Codec<K, V>, patch: map<K, Option<V>>, x: Nibbles): (k: K)
    requires Owned(c, patch, x)
    ensures k in patch && c.keyOf(k) == x
  {
    var k :| k in patch && c.keyOf(k) == x; k
  }

  ghost function At(m: Map, x: Nibbles): Option<Bytes> {
    if x in m then Some(m[x]) else None
  }

  ghost function OverlayAt<K, V>(c: Codec<K, V>, base: Map, patch: map<K, Option<V>>, x: Nibbles): Option<Bytes> {
    if Owned(c, patch, x) then
      var change := patch[Owner(c, patch, x)];
      if change.Some? then Some(c.encode(change.value)) else None
    else At(base, x)
  }

  /** The parent state with a patch on top: `Some` writes a key, `None` removes it. */
  ghost function Overlay<K, V>(c: Codec<K, V>, base: Map, patch: map<K, Option<V>>): Map {
    imap x: Nibbles | OverlayAt(c, base, patch, x).Some? :: OverlayAt(c, base, patch, x).value
  }

  lemma OverlayOwned<K(!new), V>(c: Codec<K, V>, base: Map, patch: map<K, Option<V>>, k: K)
    requires Lawful(c) && InUse(c, patch) && c.inUse(k)
    ensures k in patch ==> OverlayAt(c, base, patch, c.keyOf(k)) ==
                           if patch[k].Some? then Some(c.encode(patch[k].value)) else None
    ensures k !in patch ==> OverlayAt(c, base, patch, c.keyOf(k)) == At(base, c.keyOf(k))
  {
  }

  lemma SameMap(m: Map, n: Map)
    requires forall x :: At(m, x) == At(n, x)
    ensures m == n
  {
    forall x: Nibbles
      ensures x in m <==> x in n
      ensures x in m ==> m[x] == n[x]
    {
      assert At(m, x) == At(n, x);
    }
  }

  lemma AtOverlay<K, V>(c: Codec<K, V>, base: Map, patch: map<K, Option<V>>, x: Nibbles)
    ensures At(Overlay(c, base, patch), x) == OverlayAt(c, base, patch, x)
  {
  }

  lemma OverlayEmpty<K(!new), V>(c: Codec<K, V>, base: Map)
    ensures Overlay(c, base, map[]) == base
  {
  }

  /** The parent state's value at a key, put back. */
  ghost function Restored(m: Map, base: Map, x: Nibbles): Map {
    if x in base then m[x := base[x]] else m - {x}
  }

  lemma OverlayUnset<K(!new), V>(c: Codec<K, V>, base: Map, patch: map<K, Option<V>>, k: K)
    requires Lawful(c) && InUse(c, patch) && c.inUse(k)
    ensures Overlay(c, base, patch - {k}) == Restored(Overlay(c, base, patch), base, c.keyOf(k))
  {
    OverlayElsewhere(c, base, patch, patch - {k}, k);
    OverlayOwned(c, base, patch - {k}, k);
    hide OverlayAt, Overlay, Lawful, InUse;
    var was, now := Overlay(c, base, patch), Overlay(c, base, patch - {k});
    forall x
      ensures At(now, x) == At(Restored(was, base, c.keyOf(k)), x)
    {
      AtOverlay(c, base, patch, x);
      AtOverlay(c, base, patch - {k}, x);
    }
    SameMap(now, Restored(was, base, c.keyOf(k)));
  }

  lemma OverlaySet<K(!new), V>(c: Codec<K, V>, base: Map, patch: map<K, Option<V>>, k: K, v: V)
    requires Lawful(c) && InUse(c, patch) && c.inUse(k)
    ensures Overlay(c, base, patch[k := Some(v)]) == Overlay(c, base, patch)[c.keyOf(k) := c.encode(v)]
  {
    OverlayElsewhere(c, base, patch, patch[k := Some(v)], k);
    OverlayOwned(c, base, patch[k := Some(v)], k);
    hide OverlayAt, Overlay, Lawful, InUse;
    var was, now := Overlay(c, base, patch), Overlay(c, base, patch[k := Some(v)]);
    forall x
      ensures At(now, x) == At(was[c.keyOf(k) := c.encode(v)], x)
    {
      AtOverlay(c, base, patch, x);
      AtOverlay(c, base, patch[k := Some(v)], x);
    }
    SameMap(now, was[c.keyOf(k) := c.encode(v)]);
  }

  lemma OverlayRemove<K(!new), V>(c: Codec<K, V>, base: Map, patch: map<K, Option<V>>, k: K)
    requires Lawful(c) && InUse(c, patch) && c.inUse(k)
    ensures Overlay(c, base, patch[k := None]) == Overlay(c, base, patch) - {c.keyOf(k)}
  {
    OverlayElsewhere(c, base, patch, patch[k := None], k);
    OverlayOwned(c, base, patch[k := None], k);
    hide OverlayAt, Overlay, Lawful, InUse;
    var was, now := Overlay(c, base, patch), Overlay(c, base, patch[k := None]);
    forall x
      ensures At(now, x) == At(was - {c.keyOf(k)}, x)
    {
      AtOverlay(c, base, patch, x);
      AtOverlay(c, base, patch[k := None], x);
    }
    SameMap(now, was - {c.keyOf(k)});
  }

  /** Patches that differ only at `k` overlay the same way at every other key. */
  lemma OverlayElsewhere<K(!new), V>(c: Codec<K, V>, base: Map, p: map<K, Option<V>>, q: map<K, Option<V>>, k: K)
    requires Lawful(c) && InUse(c, p) && InUse(c, q) && p - {k} == q - {k}
    ensures forall x :: x != c.keyOf(k) ==> OverlayAt(c, base, p, x) == OverlayAt(c, base, q, x)
  {
    forall x | x != c.keyOf(k)
      ensures OverlayAt(c, base, p, x) == OverlayAt(c, base, q, x)
    {
      if Owned(c, p, x) {
        var j := Owner(c, p, x);
        assert j in p - {k} && j in q && (q - {k})[j] == q[j];
      }
      if Owned(c, q, x) {
        var j := Owner(c, q, x);
        assert j in q - {k} && j in p && (p - {k})[j] == p[j];
      }
    }
  }

  // ---------------------------------------------------------------------------
  // Every patched state has a trie

  lemma HoldsCanonical(t: Trie) returns (full: Full)
    requires t.Valid()
    ensures Canonical(full, KEY_NIBBLES) && Contents(full, KEY_NIBBLES) == t.AsMap()
  {
    full := Resolve(t.root, t.values);
    if Sound(t.root, KEY_NIBBLES) {
      SoundIsSolid(t.root, KEY_NIBBLES, t.values);
    }
  }

  lemma TrieWith(t: Full, k: Nibbles, value: Bytes) returns (u: Full)
    requires Canonical(t, KEY_NIBBLES) && IsPath(k, KEY_NIBBLES)
    ensures Canonical(u, KEY_NIBBLES) && Contents(u, KEY_NIBBLES) == Contents(t, KEY_NIBBLES)[k := value]
  {
    hide Contents, Resolve;
    var loaded := Trie(Remote(t), []).AddProof(k);
    RemoteHolds(t);
    InitIsWalked(loaded);
    WalkedThrough(loaded.root, k);
    if !loaded.IsUninit() {
      InsertMisses(loaded.root, k, |loaded.values|);
    }
    u := HoldsCanonical(loaded.InsertValue(k, value).0);
  }

  lemma TrieWithout(t: Full, k: Nibbles) returns (u: Full)
    requires Canonical(t, KEY_NIBBLES) && IsPath(k, KEY_NIBBLES)
    ensures Canonical(u, KEY_NIBBLES) && Contents(u, KEY_NIBBLES) == Contents(t, KEY_NIBBLES) - {k}
  {
    hide Contents, Resolve, Misses;
    var start := Trie(Remote(t), []);
    RemoteHolds(t);
    var loaded := Rounds(start, k, Misses(start.root, k));
    RoundsNeeded(start, k, Misses(start.root, k));
    var (after, outcome) := loaded.DeleteKey(k);
    u := HoldsCanonical(after);
    if outcome.KeyNotFound? {
      assert Contents(t, KEY_NIBBLES) - {k} == Contents(t, KEY_NIBBLES);
    }
  }

  lemma RemoteHolds(t: Full)
    requires Canonical(t, KEY_NIBBLES)
    ensures Trie(Remote(t), []).Valid() && Trie(Remote(t), []).AsMap() == Contents(t, KEY_NIBBLES)
  {
  }

  lemma InitIsWalked(t: Trie)
    requires t.Valid()
    ensures t.IsUninit() <==> !Walked(t.root, [])
  {
  }

  lemma WalkedThrough(s: Sparse, k: Nibbles)
    requires Walked(s, k)
    ensures Walked(s, [])
  {
  }

  lemma {:induction false} OverlayHasTrie<K(!new), V>(c: Codec<K, V>, database: Full, patch: map<K, Option<V>>)
    returns (t: Full)
    requires Lawful(c) && InUse(c, patch) && Canonical(database, KEY_NIBBLES)
    ensures Canonical(t, KEY_NIBBLES)
    ensures Contents(t, KEY_NIBBLES) == Overlay(c, Contents(database, KEY_NIBBLES), patch)
    decreases |patch|
  {
    hide Contents, Overlay, Canonical;
    var base := Contents(database, KEY_NIBBLES);
    if patch == map[] {
      OverlayEmpty<K, V>(c, base);
      t := database;
    } else {
      var k :| k in patch;
      var rest := patch - {k};
      var u := OverlayHasTrie(c, database, rest);
      assert patch == rest[k := patch[k]];
      if patch[k].Some? {
        OverlaySet(c, base, rest, k, patch[k].value);
        t := TrieWith(u, c.keyOf(k), c.encode(patch[k].value));
      } else {
        OverlayRemove(c, base, rest, k);
        t := TrieWithout(u, c.keyOf(k));
      }
    }
  }

  /** The root of a patched state is that of its keys and values. */
  lemma OverlayRoot<K(!new), V>(c: Codec<K, V>, h: Hashing, database: Full, patch: map<K, Option<V>>)
    requires Lawful(c) && InUse(c, patch) && Canonical(database, KEY_NIBBLES)
    ensures var m := Overlay(c, Contents(database, KEY_NIBBLES), patch); RootOf(h, m) == TrieRoots.Root(h, m)
  {
    hide Contents, Overlay, Canonical, RootOf, TrieRoots.Root;
    var t := OverlayHasTrie(c, database, patch);
    TrieRoots.RootIsDefined(h, t);
  }

  // ---------------------------------------------------------------------------
  // Undoing

  /** Puts the parent's values back at the keys of `order`, one owner after the other. */
  ghost function Undo<K, V>(c: Codec<K, V>, base: Map, m: Map, order: seq<K>): Map {
    if order == [] then m else Undo(c, base, Restored(m, base, c.keyOf(order[0])), order[1..])
  }

  /** Undoing every change, in any order, gives the parent state back. */
  lemma {:induction false} UndoInAnyOrder<K(!new), V>(c: Codec<K, V>, base: Map, patch: map<K, Option<V>>,
                                                      order: seq<K>)
    requires Lawful(c) && InUse(c, patch) && forall k :: k in order ==> c.inUse(k)
    requires forall k :: k in patch ==> k in order
    ensures Undo(c, base, Overlay(c, base, patch), order) == base
  {
    if order == [] {
      assert patch == map[];
      OverlayEmpty<K, V>(c, base);
    } else {
      OverlayUnset(c, base, patch, order[0]);
      UndoInAnyOrder(c, base, patch - {order[0]}, order[1..]);
    }
  }

  // ---------------------------------------------------------------------------
  // The protocol

  /** A change made to the trie: what was written at whose key, and what the parent state has there. */
  datatype AppliedOp<+V> = AppliedOp(inserted: Option<V>, revertKey: Nibbles, revertValue: Option<nat>)

  /** An op in the log can be undone: its revert value is the parent's value at its key. */
  ghost predicate Undoable<K, V>(c: Codec<K, V>, base: Map, values: seq<Bytes>, k: K, op: AppliedOp<V>) {
    && op.revertKey == c.keyOf(k)
    && (op.revertValue.Some? <==> op.revertKey in base)
    && (op.revertValue.Some? ==>
          op.revertValue.value < |values| && values[op.revertValue.value] == base[op.revertKey])
    && (op.inserted.None? ==> op.revertKey in base)
  }

  datatype Insertion<+K, +V> = Insertion(key: Nibbles, value: Bytes, owner: K, content: V)

  datatype Deletion<+K> = Deletion(key: Nibbles, owner: K)

  /** A staged operation that took effect on the trie. */
  datatype Effect = Reverted(index: nat) | Inserted(index: nat) | Deleted(index: nat)

  /** The fields of a patched trie at one moment, with the ghost accounting beside them. */
  datatype State<K, V> = State(
    trie: Trie,
    previous: map<K, AppliedOp<V>>,
    current: map<K, AppliedOp<V>>,
    reverts: seq<AppliedOp<V>>,
    revertsDone: seq<bool>,
    inserts: seq<Insertion<K, V>>,
    insertsOk: seq<bool>,
    deletes: seq<Deletion<K>>,
    deletesOk: seq<bool>,
    /** What the calculation in progress, or the last one, wants on top of the parent state. */
    wanted: map<K, Option<V>>,
    /** What the trie holds on top of the parent state right now. */
    patch: map<K, Option<V>>,
    /** Whose changes the reverts undo. */
    revertOwners: seq<K>,
    /** The staged operations that took effect, in order. */
    effects: seq<Effect>)

  type Log<K, V> = map<K, AppliedOp<V>>
  type Patch<K, V> = map<K, Option<V>>

  /** A log whose ops are undoable and whose values are in the trie. */
  ghost predicate Logged<K, V>(c: Codec<K, V>, base: Map, values: seq<Bytes>, log: Log<K, V>, patch: Patch<K, V>) {
    forall k :: k in log ==>
      Undoable(c, base, values, k, log[k]) && k in patch && patch[k] == log[k].inserted
  }

  /** The current log holds only what is wanted. */
  ghost predicate Applied<K, V>(current: Log<K, V>, wanted: Patch<K, V>) {
    forall k :: k in current ==> k in wanted && wanted[k] == current[k].inserted
  }

  ghost predicate Revertible<K, V>(c: Codec<K, V>, base: Map, values: seq<Bytes>, reverts: seq<AppliedOp<V>>,
                                   owners: seq<K>) {
    && |owners| == |reverts|
    && (forall i :: 0 <= i < |reverts| ==> Undoable(c, base, values, owners[i], reverts[i]))
    && (forall i, j :: 0 <= i < j < |owners| ==> owners[i] != owners[j])
  }

  /** Pending reverts are of values still in the trie that are not wanted any more. */
  ghost predicate Pending<K, V>(reverts: seq<AppliedOp<V>>, owners: seq<K>, done: seq<bool>, patch: Patch<K, V>,
                                current: Log<K, V>) {
    && |done| == |owners| == |reverts|
    && forall i :: 0 <= i < |reverts| && !done[i] ==>
         owners[i] in patch && patch[owners[i]] == reverts[i].inserted && owners[i] !in current
  }

  ghost predicate ToRevert<K>(owners: seq<K>, done: seq<bool>, k: K) {
    exists i :: 0 <= i < |owners| && i < |done| && !done[i] && owners[i] == k
  }

  /** Everything the trie holds on top of the parent state is accounted for. */
  ghost predicate Accounted<K, V>(patch: Patch<K, V>, previous: Log<K, V>, current: Log<K, V>, owners: seq<K>,
                                  done: seq<bool>) {
    forall k :: k in patch ==> k in previous || k in current || ToRevert(owners, done, k)
  }

  ghost predicate InsertsOk<K, V>(c: Codec<K, V>, inserts: seq<Insertion<K, V>>, ok: seq<bool>, wanted: Patch<K, V>,
                                  current: Log<K, V>) {
    && |ok| == |inserts|
    && (forall i :: 0 <= i < |inserts| ==>
          && inserts[i].key == c.keyOf(inserts[i].owner)
          && inserts[i].value == c.encode(inserts[i].content)
          && inserts[i].owner in wanted && wanted[inserts[i].owner] == Some(inserts[i].content)
          && (ok[i] <==> inserts[i].owner in current))
    && (forall i, j :: 0 <= i < j < |inserts| ==> inserts[i].owner != inserts[j].owner)
  }

  ghost predicate DeletesOk<K, V>(c: Codec<K, V>, deletes: seq<Deletion<K>>, ok: seq<bool>, wanted: Patch<K, V>,
                                  current: Log<K, V>) {
    && |ok| == |deletes|
    && (forall i :: 0 <= i < |deletes| ==>
          && deletes[i].key == c.keyOf(deletes[i].owner)
          && deletes[i].owner in wanted && wanted[deletes[i].owner] == None
          && (ok[i] <==> deletes[i].owner in current))
    && (forall i, j :: 0 <= i < j < |deletes| ==> deletes[i].owner != deletes[j].owner)
  }

  ghost predicate Staged<K, V>(inserts: seq<Insertion<K, V>>, deletes: seq<Deletion<K>>, k: K) {
    || (exists i :: 0 <= i < |inserts| && inserts[i].owner == k)
    || (exists i :: 0 <= i < |deletes| && deletes[i].owner == k)
  }

  /** Everything wanted is applied or staged. */
  ghost predicate Covered<K, V>(wanted: Patch<K, V>, current: Log<K, V>, inserts: seq<Insertion<K, V>>,
                                deletes: seq<Deletion<K>>) {
    forall k :: k in wanted ==> k in current || Staged(inserts, deletes, k)
  }

  ghost predicate Set(flags: seq<bool>, i: nat) {
    i < |flags| && flags[i]
  }

  ghost predicate AllSet(flags: seq<bool>) {
    forall i :: 0 <= i < |flags| ==> flags[i]
  }

  lemma NoneToSet(flags: seq<bool>)
    ensures AllSet(flags[..0])
  {
  }

  lemma MoreSet(was: seq<bool>, now: seq<bool>, i: nat)
    requires i < |was| && AllSet(was[..i]) && now == if was[i] then was else was[i := true]
    ensures AllSet(now[..i + 1])
  {
    assert now[..i + 1] == was[..i] + [true];
  }

  /** Each staged operation takes effect at most once, its flag says whether it did, and no change is
      applied before every revert is done. */
  ghost predicate EffectsOk(effects: seq<Effect>, revertsDone: seq<bool>, insertsOk: seq<bool>, deletesOk: seq<bool>) {
    && (forall i: nat :: Reverted(i) in effects <==> Set(revertsDone, i))
    && (forall i: nat :: Inserted(i) in effects <==> Set(insertsOk, i))
    && (forall i: nat :: Deleted(i) in effects <==> Set(deletesOk, i))
    && (forall p, q :: 0 <= p < q < |effects| ==> effects[p] != effects[q])
    && (forall p: nat, i: nat :: p < |effects| && !effects[p].Reverted? && i < |revertsDone| ==>
          Reverted(i) in effects[..p])
  }

  /** The invariant of a calculation in progress. */
  ghost predicate Good<K(!new), V>(c: Codec<K, V>, base: Map, s: State<K, V>) {
    && Lawful(c) && InUse(c, s.patch) && InUse(c, s.wanted)
    && s.trie.Valid() && s.trie.AsMap() == Overlay(c, base, s.patch)
    && Logged(c, base, s.trie.values, s.previous, s.patch)
    && Logged(c, base, s.trie.values, s.current, s.patch)
    && Applied(s.current, s.wanted)
    && s.previous.Keys !! s.wanted.Keys
    && Revertible(c, base, s.trie.values, s.reverts, s.revertOwners)
    && Pending(s.reverts, s.revertOwners, s.revertsDone, s.patch, s.current)
    && (forall i :: 0 <= i < |s.revertOwners| ==> s.revertOwners[i] !in s.previous)
    && Accounted(s.patch, s.previous, s.current, s.revertOwners, s.revertsDone)
    && InsertsOk(c, s.inserts, s.insertsOk, s.wanted, s.current)
    && DeletesOk(c, s.deletes, s.deletesOk, s.wanted, s.current)
    && Covered(s.wanted, s.current, s.inserts, s.deletes)
    && EffectsOk(s.effects, s.revertsDone, s.insertsOk, s.deletesOk)
  }

  /** The invariant between calculations: the trie is the parent state with `wanted` on top,
      and the log undoes exactly that. */
  ghost predicate Settled<K(!new), V>(c: Codec<K, V>, base: Map, s: State<K, V>) {
    && Lawful(c) && InUse(c, s.wanted) && s.trie.Valid() && s.trie.AsMap() == Overlay(c, base, s.wanted)
    && s.previous.Keys == s.wanted.Keys
    && Logged(c, base, s.trie.values, s.previous, s.wanted)
    && s.current == map[]
  }

  // The steps. Each keeps the invariant.

  ghost function Cleared<K, V>(s: State<K, V>): State<K, V> {
    State(s.trie, s.previous, map[], [], [], [], [], [], [], map[], s.wanted, [], [])
  }

  lemma ClearKeeps<K(!new), V>(c: Codec<K, V>, base: Map, s: State<K, V>)
    requires Settled(c, base, s)
    ensures Good(c, base, Cleared(s))
  {
  }

  /** Moves an op of the previous calculation to the current one. */
  ghost function Kept<K, V>(s: State<K, V>, k: K): State<K, V>
    requires k in s.previous
  {
    s.(previous := s.previous - {k},
       current := s.current[k := s.previous[k]],
       wanted := s.wanted[k := s.previous[k].inserted])
  }

  lemma KeepKeeps<K(!new), V>(c: Codec<K, V>, base: Map, s: State<K, V>, k: K)
    requires Good(c, base, s) && k in s.previous
    ensures Good(c, base, Kept(s, k))
  {
    KeepStaged(c, s, k);
  }

  lemma KeepStaged<K(!new), V>(c: Codec<K, V>, s: State<K, V>, k: K)
    requires k in s.previous && s.previous.Keys !! s.wanted.Keys && Applied(s.current, s.wanted)
    requires InsertsOk(c, s.inserts, s.insertsOk, s.wanted, s.current)
    requires DeletesOk(c, s.deletes, s.deletesOk, s.wanted, s.current)
    requires Covered(s.wanted, s.current, s.inserts, s.deletes)
    ensures var t := Kept(s, k);
            && Applied(t.current, t.wanted) && t.previous.Keys !! t.wanted.Keys
            && InsertsOk(c, t.inserts, t.insertsOk, t.wanted, t.current)
            && DeletesOk(c, t.deletes, t.deletesOk, t.wanted, t.current)
            && Covered(t.wanted, t.current, t.inserts, t.deletes)
  {
  }

  /** Stages the revert of an op of the previous calculation. */
  ghost function Doomed<K, V>(s: State<K, V>, k: K): State<K, V>
    requires k in s.previous
  {
    s.(previous := s.previous - {k},
       reverts := s.reverts + [s.previous[k]],
       revertsDone := s.revertsDone + [false],
       revertOwners := s.revertOwners + [k])
  }

  lemma DoomKeeps<K(!new), V>(c: Codec<K, V>, base: Map, s: State<K, V>, k: K)
    requires Good(c, base, s) && k in s.previous && s.effects == []
    ensures Good(c, base, Doomed(s, k))
  {
    DoomReverts(c, base, s, k);
    DoomAccounted(s.patch, s.previous, s.current, s.revertOwners, s.revertsDone, k);
    NoEffects(s.revertsDone, s.insertsOk, s.deletesOk);
  }

  lemma DoomReverts<K, V>(c: Codec<K, V>, base: Map, s: State<K, V>, k: K)
    requires Logged(c, base, s.trie.values, s.previous, s.patch) && k in s.previous && k !in s.current
    requires Revertible(c, base, s.trie.values, s.reverts, s.revertOwners)
    requires Pending(s.reverts, s.revertOwners, s.revertsDone, s.patch, s.current)
    requires forall i :: 0 <= i < |s.revertOwners| ==> s.revertOwners[i] !in s.previous
    ensures var t := Doomed(s, k);
            && Logged(c, base, t.trie.values, t.previous, t.patch)
            && Revertible(c, base, t.trie.values, t.reverts, t.revertOwners)
            && Pending(t.reverts, t.revertOwners, t.revertsDone, t.patch, t.current)
            && (forall i :: 0 <= i < |t.revertOwners| ==> t.revertOwners[i] !in t.previous)
  {
  }

  lemma NoEffects(revertsDone: seq<bool>, insertsOk: seq<bool>, deletesOk: seq<bool>)
    requires EffectsOk([], revertsDone, insertsOk, deletesOk)
    ensures EffectsOk([], revertsDone + [false], insertsOk, deletesOk)
    ensures EffectsOk([], revertsDone, insertsOk + [false], deletesOk)
    ensures EffectsOk([], revertsDone, insertsOk, deletesOk + [false])
  {
  }

  lemma DoomAccounted<K, V>(patch: Patch<K, V>, previous: Log<K, V>, current: Log<K, V>, owners: seq<K>,
                            done: seq<bool>, k: K)
    requires Accounted(patch, previous, current, owners, done) && |owners| == |done|
    ensures Accounted(patch, previous - {k}, current, owners + [k], done + [false])
  {
    var owners', done' := owners + [k], done + [false];
    forall j | j in patch
      ensures j in previous - {k} || j in current || ToRevert(owners', done', j)
    {
      if j == k {
        assert !done'[|owners|] && owners'[|owners|] == k;
      } else if ToRevert(owners, done, j) {
        var i :| 0 <= i < |owners| && !done[i] && owners[i] == j;
        assert !done'[i] && owners'[i] == j;
      }
    }
  }

  ghost function InsertStaged<K, V>(c: Codec<K, V>, s: State<K, V>, k: K, v: V): State<K, V> {
    s.(inserts := s.inserts + [Insertion(c.keyOf(k), c.encode(v), k, v)],
       insertsOk := s.insertsOk + [false],
       wanted := s.wanted[k := Some(v)])
  }

  lemma StageInsertKeeps<K(!new), V>(c: Codec<K, V>, base: Map, s: State<K, V>, k: K, v: V)
    requires Good(c, base, s) && k !in s.wanted && k !in s.previous && s.effects == [] && c.inUse(k)
    ensures Good(c, base, InsertStaged(c, s, k, v))
  {
    InsertIsStaged(c, s, k, v);
    NoEffects(s.revertsDone, s.insertsOk, s.deletesOk);
  }

  lemma InsertIsStaged<K(!new), V>(c: Codec<K, V>, s: State<K, V>, k: K, v: V)
    requires k !in s.wanted && Applied(s.current, s.wanted)
    requires InsertsOk(c, s.inserts, s.insertsOk, s.wanted, s.current)
    requires DeletesOk(c, s.deletes, s.deletesOk, s.wanted, s.current)
    requires Covered(s.wanted, s.current, s.inserts, s.deletes)
    ensures var t := InsertStaged(c, s, k, v);
            && Applied(t.current, t.wanted)
            && InsertsOk(c, t.inserts, t.insertsOk, t.wanted, t.current)
            && DeletesOk(c, t.deletes, t.deletesOk, t.wanted, t.current)
            && Covered(t.wanted, t.current, t.inserts, t.deletes)
  {
    var t := InsertStaged(c, s, k, v);
    assert t.inserts[|s.inserts|].owner == k;
    StagedStays(s.inserts, s.deletes, t.inserts, t.deletes);
  }

  ghost function DeleteStaged<K, V>(c: Codec<K, V>, s: State<K, V>, k: K): State<K, V> {
    s.(deletes := s.deletes + [Deletion(c.keyOf(k), k)],
       deletesOk := s.deletesOk + [false],
       wanted := s.wanted[k := None])
  }

  lemma StageDeleteKeeps<K(!new), V>(c: Codec<K, V>, base: Map, s: State<K, V>, k: K)
    requires Good(c, base, s) && k !in s.wanted && k !in s.previous && s.effects == [] && c.inUse(k)
    ensures Good(c, base, DeleteStaged(c, s, k))
  {
    DeleteIsStaged(c, s, k);
    NoEffects(s.revertsDone, s.insertsOk, s.deletesOk);
  }

  lemma DeleteIsStaged<K(!new), V>(c: Codec<K, V>, s: State<K, V>, k: K)
    requires k !in s.wanted && Applied(s.current, s.wanted)
    requires InsertsOk(c, s.inserts, s.insertsOk, s.wanted, s.current)
    requires DeletesOk(c, s.deletes, s.deletesOk, s.wanted, s.current)
    requires Covered(s.wanted, s.current, s.inserts, s.deletes)
    ensures var t := DeleteStaged(c, s, k);
            && Applied(t.current, t.wanted)
            && InsertsOk(c, t.inserts, t.insertsOk, t.wanted, t.current)
            && DeletesOk(c, t.deletes, t.deletesOk, t.wanted, t.current)
            && Covered(t.wanted, t.current, t.inserts, t.deletes)
  {
    var t := DeleteStaged(c, s, k);
    assert t.deletes[|s.deletes|].owner == k;
    StagedStays(s.inserts, s.deletes, t.inserts, t.deletes);
  }

  lemma StagedStays<K(!new), V>(ins: seq<Insertion<K, V>>, del: seq<Deletion<K>>, ins': seq<Insertion<K, V>>,
                                del': seq<Deletion<K>>)
    requires ins <= ins' && del <= del'
    ensures forall k :: Staged(ins, del, k) ==> Staged(ins', del', k)
  {
  }

  /** Revert `i` took effect, leaving the trie `t`. */
  ghost function RevertDone<K, V>(s: State<K, V>, i: nat, t: Trie): State<K, V>
    requires i < |s.revertsDone| && i < |s.revertOwners|
  {
    s.(trie := t,
       patch := s.patch - {s.revertOwners[i]},
       revertsDone := s.revertsDone[i := true],
       effects := s.effects + [Reverted(i)])
  }

  lemma RevertKeeps<K(!new), V>(c: Codec<K, V>, base: Map, s: State<K, V>, i: nat, t: Trie)
    requires Good(c, base, s) && s.previous == map[] && i < |s.reverts| && !s.revertsDone[i]
    requires t.Valid() && s.trie.values <= t.values
    requires t.AsMap() == Restored(s.trie.AsMap(), base, s.reverts[i].revertKey)
    ensures Good(c, base, RevertDone(s, i, t))
  {
    OverlayUnset(c, base, s.patch, s.revertOwners[i]);
    RevertLogs(c, base, s, i, t.values);
    RevertAccounted(s.patch, s.previous, s.current, s.revertOwners, s.revertsDone, i);
    RevertEffects(s.effects, s.revertsDone, s.insertsOk, s.deletesOk, i);
  }

  lemma RevertLogs<K, V>(c: Codec<K, V>, base: Map, s: State<K, V>, i: nat, values: seq<Bytes>)
    requires Logged(c, base, s.trie.values, s.current, s.patch)
    requires Revertible(c, base, s.trie.values, s.reverts, s.revertOwners)
    requires Pending(s.reverts, s.revertOwners, s.revertsDone, s.patch, s.current)
    requires i < |s.reverts| && !s.revertsDone[i] && s.trie.values <= values
    ensures Logged(c, base, values, s.current, s.patch - {s.revertOwners[i]})
    ensures Revertible(c, base, values, s.reverts, s.revertOwners)
    ensures Pending(s.reverts, s.revertOwners, s.revertsDone[i := true], s.patch - {s.revertOwners[i]}, s.current)
  {
  }

  lemma RevertAccounted<K, V>(patch: Patch<K, V>, previous: Log<K, V>, current: Log<K, V>, owners: seq<K>,
                              done: seq<bool>, i: nat)
    requires Accounted(patch, previous, current, owners, done) && |owners| == |done| && i < |done|
    ensures Accounted(patch - {owners[i]}, previous, current, owners, done[i := true])
  {
  }

  /** While a revert is pending, nothing but reverts took effect. */
  lemma OnlyReverts(effects: seq<Effect>, revertsDone: seq<bool>, insertsOk: seq<bool>, deletesOk: seq<bool>, i: nat)
    requires EffectsOk(effects, revertsDone, insertsOk, deletesOk) && i < |revertsDone|
    ensures revertsDone[i] || forall p :: 0 <= p < |effects| ==> effects[p].Reverted?
  {
    if p :| 0 <= p < |effects| && !effects[p].Reverted? {
      assert Reverted(i) in effects[..p];
      assert Reverted(i) in effects;
      assert Set(revertsDone, i);
    }
  }

  lemma RevertEffects(effects: seq<Effect>, revertsDone: seq<bool>, insertsOk: seq<bool>, deletesOk: seq<bool>, i: nat)
    requires EffectsOk(effects, revertsDone, insertsOk, deletesOk) && i < |revertsDone| && !revertsDone[i]
    ensures EffectsOk(effects + [Reverted(i)], revertsDone[i := true], insertsOk, deletesOk)
  {
  }

  /** A change that takes effect once every revert is done. */
  lemma ChangeOrder(effects: seq<Effect>, revertsDone: seq<bool>, insertsOk: seq<bool>, deletesOk: seq<bool>, e: Effect)
    requires EffectsOk(effects, revertsDone, insertsOk, deletesOk) && AllSet(revertsDone) && !e.Reverted?
    ensures forall p: nat, i: nat :: p < |effects + [e]| && !(effects + [e])[p].Reverted? && i < |revertsDone| ==>
              Reverted(i) in (effects + [e])[..p]
  {
    forall p: nat, i: nat | p < |effects + [e]| && !(effects + [e])[p].Reverted? && i < |revertsDone|
      ensures Reverted(i) in (effects + [e])[..p]
    {
      if p < |effects| {
        assert (effects + [e])[..p] == effects[..p];
      } else {
        assert (effects + [e])[..p] == effects;
        assert Set(revertsDone, i);
      }
    }
  }

  lemma InsertEffects(effects: seq<Effect>, revertsDone: seq<bool>, insertsOk: seq<bool>, deletesOk: seq<bool>, i: nat)
    requires EffectsOk(effects, revertsDone, insertsOk, deletesOk) && AllSet(revertsDone)
    requires i < |insertsOk| && !insertsOk[i]
    ensures EffectsOk(effects + [Inserted(i)], revertsDone, insertsOk[i := true], deletesOk)
  {
    ChangeOrder(effects, revertsDone, insertsOk, deletesOk, Inserted(i));
    assert !Set(insertsOk, i);
    assert forall j: nat :: Set(insertsOk[i := true], j) <==> Set(insertsOk, j) || j == i;
  }

  lemma DeleteEffects(effects: seq<Effect>, revertsDone: seq<bool>, insertsOk: seq<bool>, deletesOk: seq<bool>, i: nat)
    requires EffectsOk(effects, revertsDone, insertsOk, deletesOk) && AllSet(revertsDone)
    requires i < |deletesOk| && !deletesOk[i]
    ensures EffectsOk(effects + [Deleted(i)], revertsDone, insertsOk, deletesOk[i := true])
  {
    ChangeOrder(effects, revertsDone, insertsOk, deletesOk, Deleted(i));
    assert !Set(deletesOk, i);
    assert forall j: nat :: Set(deletesOk[i := true], j) <==> Set(deletesOk, j) || j == i;
  }

  /** With every revert done, the trie differs from the parent state only by what was applied. */
  lemma NothingToRevert<K(!new), V>(patch: Patch<K, V>, current: Log<K, V>, owners: seq<K>, done: seq<bool>)
    requires Accounted(patch, map[], current, owners, done) && AllSet(done)
    ensures patch.Keys <= current.Keys
  {
  }

  /** Recording an applied op keeps the logs right. */
  lemma ApplyLogs<K(!new), V>(c: Codec<K, V>, base: Map, s: State<K, V>, k: K, op: AppliedOp<V>, values: seq<Bytes>)
    requires Logged(c, base, s.trie.values, s.current, s.patch) && Undoable(c, base, s.trie.values, k, op)
    requires Revertible(c, base, s.trie.values, s.reverts, s.revertOwners)
    requires |s.revertsDone| == |s.reverts| && AllSet(s.revertsDone) && s.patch.Keys <= s.current.Keys
    requires s.trie.values <= values
    ensures var current, patch := s.current[k := op], s.patch[k := op.inserted];
            && Logged(c, base, values, current, patch)
            && Revertible(c, base, values, s.reverts, s.revertOwners)
            && Pending(s.reverts, s.revertOwners, s.revertsDone, patch, current)
            && Accounted(patch, map[], current, s.revertOwners, s.revertsDone)
  {
  }

  lemma ApplyStaged<K(!new), V>(c: Codec<K, V>, s: State<K, V>, k: K, op: AppliedOp<V>)
    requires Applied(s.current, s.wanted) && Covered(s.wanted, s.current, s.inserts, s.deletes)
    requires k in s.wanted && s.wanted[k] == op.inserted
    ensures Applied(s.current[k := op], s.wanted) && Covered(s.wanted, s.current[k := op], s.inserts, s.deletes)
  {
  }

  lemma InsertFlag<K(!new), V>(c: Codec<K, V>, s: State<K, V>, i: nat, op: AppliedOp<V>)
    requires InsertsOk(c, s.inserts, s.insertsOk, s.wanted, s.current)
    requires DeletesOk(c, s.deletes, s.deletesOk, s.wanted, s.current) && i < |s.inserts|
    ensures InsertsOk(c, s.inserts, s.insertsOk[i := true], s.wanted, s.current[s.inserts[i].owner := op])
    ensures DeletesOk(c, s.deletes, s.deletesOk, s.wanted, s.current[s.inserts[i].owner := op])
  {
  }

  lemma DeleteFlag<K(!new), V>(c: Codec<K, V>, s: State<K, V>, i: nat, op: AppliedOp<V>)
    requires InsertsOk(c, s.inserts, s.insertsOk, s.wanted, s.current)
    requires DeletesOk(c, s.deletes, s.deletesOk, s.wanted, s.current) && i < |s.deletes|
    ensures InsertsOk(c, s.inserts, s.insertsOk, s.wanted, s.current[s.deletes[i].owner := op])
    ensures DeletesOk(c, s.deletes, s.deletesOk[i := true], s.wanted, s.current[s.deletes[i].owner := op])
  {
  }

  /** Insertion `i` took effect, replacing the stored value `replaced` and leaving the trie `t`. */
  ghost function InsertDone<K, V>(s: State<K, V>, i: nat, t: Trie, replaced: Option<nat>): State<K, V>
    requires i < |s.inserts| && i < |s.insertsOk|
  {
    var ins := s.inserts[i];
    s.(trie := t,
       patch := s.patch[ins.owner := Some(ins.content)],
       insertsOk := s.insertsOk[i := true],
       current := s.current[ins.owner := AppliedOp(Some(ins.content), ins.key, replaced)],
       effects := s.effects + [Inserted(i)])
  }

  lemma InsertKeeps<K(!new), V>(c: Codec<K, V>, base: Map, s: State<K, V>, i: nat, t: Trie, replaced: Option<nat>)
    requires Good(c, base, s) && s.previous == map[] && AllSet(s.revertsDone)
    requires i < |s.inserts| && !s.insertsOk[i]
    requires t.Valid() && s.trie.values <= t.values
    requires t.AsMap() == s.trie.AsMap()[s.inserts[i].key := s.inserts[i].value]
    requires replaced.Some? <==> s.inserts[i].key in s.trie.AsMap()
    requires replaced.Some? ==>
               replaced.value < |s.trie.values| && s.trie.values[replaced.value] == s.trie.AsMap()[s.inserts[i].key]
    ensures Good(c, base, InsertDone(s, i, t, replaced))
  {
    var k := s.inserts[i].owner;
    NothingToRevert(s.patch, s.current, s.revertOwners, s.revertsDone);
    OverlayOwned(c, base, s.patch, k);
    OverlaySet(c, base, s.patch, k, s.inserts[i].content);
    var op := AppliedOp(Some(s.inserts[i].content), s.inserts[i].key, replaced);
    ApplyLogs(c, base, s, k, op, t.values);
    ApplyStaged(c, s, k, op);
    InsertFlag(c, s, i, op);
    InsertEffects(s.effects, s.revertsDone, s.insertsOk, s.deletesOk, i);
  }

  /** Deletion `i` took effect, removing the stored value `removed` and leaving the trie `t`. */
  ghost function DeleteDone<K, V>(s: State<K, V>, i: nat, t: Trie, removed: nat): State<K, V>
    requires i < |s.deletes| && i < |s.deletesOk|
  {
    var del := s.deletes[i];
    s.(trie := t,
       patch := s.patch[del.owner := None],
       deletesOk := s.deletesOk[i := true],
       current := s.current[del.owner := AppliedOp(None, del.key, Some(removed))],
       effects := s.effects + [Deleted(i)])
  }

  lemma DeleteKeeps<K(!new), V>(c: Codec<K, V>, base: Map, s: State<K, V>, i: nat, t: Trie, removed: nat)
    requires Good(c, base, s) && s.previous == map[] && AllSet(s.revertsDone)
    requires i < |s.deletes| && !s.deletesOk[i]
    requires t.Valid() && s.trie.values <= t.values
    requires t.AsMap() == s.trie.AsMap() - {s.deletes[i].key}
    requires s.deletes[i].key in s.trie.AsMap() && removed < |s.trie.values|
    requires s.trie.values[removed] == s.trie.AsMap()[s.deletes[i].key]
    ensures Good(c, base, DeleteDone(s, i, t, removed))
  {
    var k := s.deletes[i].owner;
    NothingToRevert(s.patch, s.current, s.revertOwners, s.revertsDone);
    OverlayOwned(c, base, s.patch, k);
    OverlayRemove(c, base, s.patch, k);
    var op := AppliedOp(None, s.deletes[i].key, Some(removed));
    ApplyLogs(c, base, s, k, op, t.values);
    ApplyStaged(c, s, k, op);
    DeleteFlag(c, s, i, op);
    DeleteEffects(s.effects, s.revertsDone, s.insertsOk, s.deletesOk, i);
  }

  lemma LoadKeeps<K(!new), V>(c: Codec<K, V>, base: Map, s: State<K, V>, t: Trie)
    requires Good(c, base, s)
    requires t.Valid() && s.trie.values <= t.values && t.AsMap() == s.trie.AsMap()
    ensures Good(c, base, s.(trie := t))
  {
  }

  ghost predicate AllDone<K, V>(s: State<K, V>) {
    AllSet(s.revertsDone) && AllSet(s.insertsOk) && AllSet(s.deletesOk)
  }

  /** When everything is done, what was applied is what was wanted. */
  lemma CommitKeeps<K(!new), V>(c: Codec<K, V>, base: Map, s: State<K, V>)
    requires Good(c, base, s) && s.previous == map[] && AllDone(s)
    ensures s.current.Keys == s.wanted.Keys && s.patch == s.wanted
    ensures Settled(c, base, s.(previous := s.current, current := map[]))
  {
    NothingToRevert(s.patch, s.current, s.revertOwners, s.revertsDone);
    assert s.current.Keys == s.wanted.Keys;
    assert s.patch == s.wanted;
  }

  /** What the start of the next calculation leaves of one that was given up: its own log is dropped. */
  ghost function Abandoned<K, V>(s: State<K, V>): State<K, V> {
    State(s.trie, s.previous, map[], [], [], [], [], [], [], Keeping(s.previous, _ => true), s.patch, [], [])
  }

  /** A calculation can be given up without harm exactly when it changed nothing that its dropped log would undo. */
  lemma AbandonedIsSettled<K(!new), V>(c: Codec<K, V>, base: Map, s: State<K, V>)
    requires Good(c, base, s)
    ensures Settled(c, base, Abandoned(s)) <==>
            forall k :: k in s.patch && k !in s.previous ==> At(s.trie.AsMap(), c.keyOf(k)) == At(base, c.keyOf(k))
  {
    hide Trie.AsMap, Trie.Valid, Overlay, Lawful;
    var left := Keeping(s.previous, _ => true);
    SubPatch(c, base, left, s.patch);
    assert left.Keys == s.previous.Keys;
    assert Settled(c, base, Abandoned(s)) <==> s.trie.AsMap() == Overlay(c, base, left);
  }

  /** Dropping entries of a patch changes nothing exactly when they have no effect. */
  lemma SubPatch<K(!new), V>(c: Codec<K, V>, base: Map, p: Patch<K, V>, q: Patch<K, V>)
    requires Lawful(c) && InUse(c, q) && forall k :: k in p ==> k in q && p[k] == q[k]
    ensures Overlay(c, base, q) == Overlay(c, base, p) <==>
            forall k :: k in q && k !in p ==> At(Overlay(c, base, q), c.keyOf(k)) == At(base, c.keyOf(k))
  {
    if forall k :: k in q && k !in p ==> At(Overlay(c, base, q), c.keyOf(k)) == At(base, c.keyOf(k)) {
      forall x
        ensures OverlayAt(c, base, p, x) == OverlayAt(c, base, q, x)
      {
        SubPatchAt(c, base, p, q, x);
      }
      SameMap(Overlay(c, base, q), Overlay(c, base, p));
    }
    forall k | k in q && k !in p
      ensures At(Overlay(c, base, p), c.keyOf(k)) == At(base, c.keyOf(k))
    {
      OverlayOwned(c, base, p, k);
    }
  }

  lemma SubPatchAt<K(!new), V>(c: Codec<K, V>, base: Map, p: Patch<K, V>, q: Patch<K, V>, x: Nibbles)
    requires Lawful(c) && InUse(c, q) && forall k :: k in p ==> k in q && p[k] == q[k]
    requires forall k :: k in q && k !in p ==> At(Overlay(c, base, q), c.keyOf(k)) == At(base, c.keyOf(k))
    ensures OverlayAt(c, base, p, x) == OverlayAt(c, base, q, x)
  {
  }

  /** A pending revert can be carried out: the parent's value is stored, or the key is there to delete. */
  lemma RevertReady<K(!new), V>(c: Codec<K, V>, base: Map, s: State<K, V>, i: nat)
    requires Good(c, base, s) && i < |s.reverts| && !s.revertsDone[i]
    ensures s.trie.Valid() && IsPath(s.reverts[i].revertKey, KEY_NIBBLES)
    ensures var op := s.reverts[i];
            && (op.revertValue.Some? <==> op.revertKey in base)
            && (op.revertValue.Some? ==>
                  op.revertValue.value < |s.trie.values| && s.trie.values[op.revertValue.value] == base[op.revertKey])
            && (op.revertValue.None? ==> op.revertKey in s.trie.AsMap())
  {
  }

  /** Before its deletion, a staged key holds what the parent state has there. */
  lemma DeleteReady<K(!new), V>(c: Codec<K, V>, base: Map, s: State<K, V>, i: nat)
    requires Good(c, base, s) && s.previous == map[] && AllSet(s.revertsDone)
    requires i < |s.deletes| && !s.deletesOk[i]
    ensures s.trie.Valid() && IsPath(s.deletes[i].key, KEY_NIBBLES)
    ensures s.deletes[i].key in s.trie.AsMap() <==> s.deletes[i].key in base
    ensures s.deletes[i].owner in s.wanted && s.wanted[s.deletes[i].owner] == None
    ensures s.deletes[i].key == c.keyOf(s.deletes[i].owner)
  {
    NothingToRevert(s.patch, s.current, s.revertOwners, s.revertsDone);
    OverlayOwned(c, base, s.patch, s.deletes[i].owner);
  }

  lemma InsertReady<K(!new), V>(c: Codec<K, V>, base: Map, s: State<K, V>, i: nat)
    requires Good(c, base, s) && i < |s.inserts|
    ensures s.trie.Valid() && IsPath(s.inserts[i].key, KEY_NIBBLES)
  {
  }

  lemma TrieIsValid<K(!new), V>(c: Codec<K, V>, base: Map, s: State<K, V>)
    requires Good(c, base, s)
    ensures s.trie.Valid()
  {
  }

  lemma FlagCounts<K(!new), V>(c: Codec<K, V>, base: Map, s: State<K, V>)
    requires Good(c, base, s)
    ensures |s.revertsDone| == |s.revertOwners| == |s.reverts|
    ensures |s.insertsOk| == |s.inserts| && |s.deletesOk| == |s.deletes|
  {
  }

  /** Some wanted removal is of a key that the parent state does not have. */
  ghost predicate RemovesAbsent<K, V>(c: Codec<K, V>, base: Map, wanted: Patch<K, V>) {
    exists k :: k in wanted && wanted[k] == None && c.keyOf(k) !in base
  }

  /** A calculation that wants such a removal never completes. */
  lemma SettledRemovesPresent<K(!new), V>(c: Codec<K, V>, base: Map, s: State<K, V>)
    requires Settled(c, base, s)
    ensures !RemovesAbsent(c, base, s.wanted)
  {
    forall k | k in s.wanted && s.wanted[k] == None
      ensures c.keyOf(k) in base
    {
      assert Undoable(c, base, s.trie.values, k, s.previous[k]);
    }
  }

  // ---------------------------------------------------------------------------
  // What is still to be done, as operations on the trie

  ghost function RevertOp<V>(op: AppliedOp<V>): Op {
    if op.revertValue.Some? then Restore(op.revertKey, op.revertValue.value) else Remove(op.revertKey)
  }

  ghost function PendingReverts<V>(reverts: seq<AppliedOp<V>>, done: seq<bool>): seq<Op>
    requires |reverts| == |done|
  {
    if reverts == [] then []
    else
      var n := |reverts| - 1;
      PendingReverts(reverts[..n], done[..n]) + if done[n] then [] else [RevertOp(reverts[n])]
  }

  ghost function PendingInserts<K, V>(inserts: seq<Insertion<K, V>>, ok: seq<bool>): seq<Op>
    requires |inserts| == |ok|
  {
    if inserts == [] then []
    else
      var n := |inserts| - 1;
      PendingInserts(inserts[..n], ok[..n]) + if ok[n] then [] else [Write(inserts[n].key, inserts[n].value)]
  }

  ghost function PendingDeletes<K>(deletes: seq<Deletion<K>>, ok: seq<bool>): seq<Op>
    requires |deletes| == |ok|
  {
    if deletes == [] then []
    else
      var n := |deletes| - 1;
      PendingDeletes(deletes[..n], ok[..n]) + if ok[n] then [] else [Remove(deletes[n].key)]
  }

  ghost function Grown(missed: seq<Nibbles>, more: seq<Nibbles>): seq<Nibbles> {
    if more == [] then missed else missed + more
  }

  /** One attempt on a trie. */
  ghost predicate Attempted(t: Trie, op: Op, missed: seq<Nibbles>, t': Trie, missed': seq<Nibbles>) {
    t.Valid() && Fits(t, op) && t' == Attempt(t, op).0 && missed' == Grown(missed, Attempt(t, op).1)
  }

  /** A list of attempts on a trie, and the operations still to do. */
  ghost predicate AllAttempted(t: Trie, ops: seq<Op>, missed: seq<Nibbles>, t': Trie, missed': seq<Nibbles>,
                               left: seq<Op>) {
    && t.Valid() && AllFit(t, ops)
    && t' == AttemptAll(t, ops).0 && missed' == Grown(missed, AttemptAll(t, ops).1) && left == AttemptAll(t, ops).2
  }

  lemma WriteAttempted(t: Trie, k: Nibbles, bytes: Bytes, missed: seq<Nibbles>)
    requires t.Valid() && IsPath(k, KEY_NIBBLES)
    ensures var (t', o) := t.InsertValue(k, bytes);
            Attempted(t, Write(k, bytes), missed, t', if o.InsertNotFound? then missed + [o.path] else missed)
  {
  }

  lemma RestoreAttempted(t: Trie, k: Nibbles, value: nat, missed: seq<Nibbles>)
    requires t.Valid() && IsPath(k, KEY_NIBBLES) && value < |t.values|
    ensures var (t', o) := t.InsertStored(k, value);
            Attempted(t, Restore(k, value), missed, t', if o.InsertNotFound? then missed + [o.path] else missed)
  {
  }

  lemma RemoveAttempted(t: Trie, k: Nibbles, missed: seq<Nibbles>)
    requires t.Valid() && IsPath(k, KEY_NIBBLES)
    ensures var (t', o) := t.DeleteKey(k);
            Attempted(t, Remove(k), missed, t', if o.DeleteNotFound? then missed + [o.path] else missed)
  {
  }

  lemma OneMoreAttempted(t: Trie, ops: seq<Op>, missed: seq<Nibbles>, t1: Trie, m1: seq<Nibbles>, left: seq<Op>,
                         op: Op, t2: Trie, m2: seq<Nibbles>)
    requires AllAttempted(t, ops, missed, t1, m1, left) && Attempted(t1, op, m1, t2, m2) && Fits(t, op)
    ensures AllAttempted(t, ops + [op], missed, t2, m2, if m2 == m1 then left else left + [op])
  {
    hide Attempt, Trie.Valid;
    assert (ops + [op])[..|ops|] == ops;
    GrownTwice(missed, AttemptAll(t, ops).1, Attempt(t1, op).1);
    assert left + [] == left;
  }

  lemma GrownTwice(missed: seq<Nibbles>, a: seq<Nibbles>, b: seq<Nibbles>)
    ensures Grown(Grown(missed, a), b) == Grown(missed, a + b)
    ensures Grown(Grown(missed, a), b) == Grown(missed, a) <==> b == []
  {
    assert missed + a + b == missed + (a + b) && a + [] == a && [] + b == b;
    if b != [] {
      assert |Grown(missed, a) + b| > |Grown(missed, a)|;
    }
  }

  lemma ThenAttempted(t: Trie, a: seq<Op>, missed: seq<Nibbles>, t1: Trie, m1: seq<Nibbles>, l1: seq<Op>,
                      b: seq<Op>, t2: Trie, m2: seq<Nibbles>, l2: seq<Op>)
    requires AllAttempted(t, a, missed, t1, m1, l1) && AllAttempted(t1, b, m1, t2, m2, l2)
    requires forall op :: op in b ==> !op.Restore?
    ensures AllAttempted(t, a + b, missed, t2, m2, l1 + l2)
  {
    hide AttemptAll, Trie.Valid, AllFit;
    AttemptThen(t, a, b);
    GrownTwice(missed, AttemptAll(t, a).1, AttemptAll(t1, b).1);
  }

  lemma {:induction false} AttemptThen(t: Trie, a: seq<Op>, b: seq<Op>)
    requires t.Valid() && AllFit(t, a) && AllFit(AttemptAll(t, a).0, b) && forall op :: op in b ==> !op.Restore?
    ensures AllFit(t, a + b)
    ensures var (t1, m1, l1) := AttemptAll(t, a);
            var (t2, m2, l2) := AttemptAll(t1, b);
            AttemptAll(t, a + b) == (t2, m1 + m2, l1 + l2)
    decreases |b|
  {
    hide Attempt, Trie.Valid;
    var (t1, m1, l1) := AttemptAll(t, a);
    if b == [] {
      assert a + b == a && m1 + [] == m1 && l1 + [] == l1;
    } else {
      var n := |b| - 1;
      AttemptThen(t, a, b[..n]);
      assert (a + b)[..|a| + n] == a + b[..n] && (a + b)[|a| + n] == b[n];
      var (t2, m2, l2) := AttemptAll(t1, b[..n]);
      assert b[n] in b;
      var (t3, m3) := Attempt(t2, b[n]);
      assert m1 + m2 + m3 == m1 + (m2 + m3);
      assert l1 + l2 + (if m3 == [] then [] else [b[n]]) == l1 + (l2 + if m3 == [] then [] else [b[n]]);
    }
  }

  /** What a round of attempts makes of a state: reverts first, and the rest only when none is left. */
  ghost predicate Tried<K, V>(s: State<K, V>, t: State<K, V>, missed: seq<Nibbles>, needRoot: bool) {
    && Flagged(s) && Flagged(t) && s.trie.Valid() && AllFit(s.trie, RevertOps(s))
    && var (t1, m1, l1) := AttemptAll(s.trie, RevertOps(s));
       RevertOps(t) == l1
       && if m1 != [] then t.trie == t1 && missed == m1 && ChangeOps(t) == ChangeOps(s)
          else
            && AllFit(t1, ChangeOps(s))
            && var (t2, m2, l2) := AttemptAll(t1, ChangeOps(s));
               t.trie == t2 && ChangeOps(t) == l2 && missed == m2 + if needRoot && t2.IsUninit() then [[]] else []
  }

  ghost predicate Flagged<K, V>(s: State<K, V>) {
    |s.reverts| == |s.revertsDone| && |s.inserts| == |s.insertsOk| && |s.deletes| == |s.deletesOk|
  }

  lemma TriedReverts<K, V>(s: State<K, V>, t: State<K, V>, missed: seq<Nibbles>, needRoot: bool)
    requires Flagged(s) && Flagged(t) && missed != [] && ChangeOps(t) == ChangeOps(s)
    requires AllAttempted(s.trie, RevertOps(s), [], t.trie, missed, RevertOps(t))
    ensures Tried(s, t, missed, needRoot)
  {
    hide AttemptAll, RevertOps, ChangeOps, Trie.Valid, AllFit;
    assert forall m: seq<Nibbles> :: [] + m == m;
  }

  lemma TriedChanges<K, V>(s: State<K, V>, u: State<K, V>, t: State<K, V>, m: seq<Nibbles>, missed: seq<Nibbles>,
                           needRoot: bool)
    requires Flagged(s) && Flagged(u) && Flagged(t) && u.reverts == t.reverts && u.revertsDone == t.revertsDone
    requires ChangeOps(u) == ChangeOps(s)
    requires AllAttempted(s.trie, RevertOps(s), [], u.trie, [], RevertOps(u))
    requires AllAttempted(u.trie, ChangeOps(u), [], t.trie, m, ChangeOps(t))
    requires missed == if needRoot && t.trie.IsUninit() then m + [[]] else m
    ensures Tried(s, t, missed, needRoot)
  {
    hide AttemptAll, ChangeOps, Trie.Valid, AllFit;
    assert forall m: seq<Nibbles> :: [] + m == m && m + [] == m;
  }

  lemma {:induction false} DeletesRestoreNothing<K>(deletes: seq<Deletion<K>>, ok: seq<bool>)
    requires |deletes| == |ok|
    ensures forall op :: op in PendingDeletes(deletes, ok) ==> op.Remove?
  {
    if deletes != [] {
      var n := |deletes| - 1;
      DeletesRestoreNothing(deletes[..n], ok[..n]);
    }
  }

  ghost function RevertOps<K, V>(s: State<K, V>): seq<Op>
    requires |s.reverts| == |s.revertsDone|
  {
    PendingReverts(s.reverts, s.revertsDone)
  }

  ghost function ChangeOps<K, V>(s: State<K, V>): seq<Op>
    requires |s.inserts| == |s.insertsOk| && |s.deletes| == |s.deletesOk|
  {
    PendingInserts(s.inserts, s.insertsOk) + PendingDeletes(s.deletes, s.deletesOk)
  }

  lemma RevertsStart<V>(t: Trie, reverts: seq<AppliedOp<V>>, ok: seq<bool>)
    requires t.Valid() && |reverts| == |ok|
    ensures AllAttempted(t, PendingReverts(reverts[..0], ok[..0]), [], t, [], PendingReverts(reverts[..0], ok[..0]))
  {
  }

  lemma RevertsStep<V>(t0: Trie, reverts: seq<AppliedOp<V>>, was: seq<bool>, i: nat,
                     t: Trie, m: seq<Nibbles>, flags: seq<bool>, t': Trie, m': seq<Nibbles>, flags': seq<bool>)
    requires i < |reverts| == |was| == |flags| == |flags'| && Fits(t0, RevertOp(reverts[i])) && flags[i..] == was[i..]
    requires AllAttempted(t0, PendingReverts(reverts[..i], was[..i]), [], t, m,
                          PendingReverts(reverts[..i], flags[..i]))
    requires if flags[i] then t' == t && m' == m && flags' == flags
             else Attempted(t, RevertOp(reverts[i]), m, t', m') && flags' == if m' == m then flags[i := true] else flags
    ensures AllAttempted(t0, PendingReverts(reverts[..i + 1], was[..i + 1]), [], t', m',
                         PendingReverts(reverts[..i + 1], flags'[..i + 1]))
    ensures flags'[i + 1..] == was[i + 1..]
  {
    hide AllAttempted, Attempted;
    assert flags[i] == flags[i..][0] == was[i..][0] == was[i];
    assert reverts[..i + 1][..i] == reverts[..i] && was[..i + 1][..i] == was[..i] && flags'[..i + 1][..i] == flags[..i];
    assert flags'[i + 1..] == flags[i..][1..] && was[i..][1..] == was[i + 1..];
    assert PendingReverts(reverts[..i], flags[..i]) + [] == PendingReverts(reverts[..i], flags[..i]);
    assert PendingReverts(reverts[..i], was[..i]) + [] == PendingReverts(reverts[..i], was[..i]);
    if !flags[i] {
      assert flags'[..i + 1] == flags[..i] + [m' == m];
      OneMoreAttempted(t0, PendingReverts(reverts[..i], was[..i]), [], t, m, PendingReverts(reverts[..i], flags[..i]),
                       RevertOp(reverts[i]), t', m');
    }
  }

  lemma InsertsStart<K, V>(t: Trie, missed: seq<Nibbles>, inserts: seq<Insertion<K, V>>, ok: seq<bool>)
    requires t.Valid() && |inserts| == |ok|
    ensures AllAttempted(t, PendingInserts(inserts[..0], ok[..0]), missed, t, missed,
                         PendingInserts(inserts[..0], ok[..0]))
  {
  }

  lemma InsertsStep<K, V>(t0: Trie, missed: seq<Nibbles>, inserts: seq<Insertion<K, V>>, was: seq<bool>, i: nat,
                     t: Trie, m: seq<Nibbles>, flags: seq<bool>, t': Trie, m': seq<Nibbles>, flags': seq<bool>)
    requires i < |inserts| == |was| == |flags| == |flags'| && Fits(t0, Write(inserts[i].key, inserts[i].value))
             && flags[i..] == was[i..]
    requires AllAttempted(t0, PendingInserts(inserts[..i], was[..i]), missed, t, m,
                          PendingInserts(inserts[..i], flags[..i]))
    requires if flags[i] then t' == t && m' == m && flags' == flags
             else Attempted(t, Write(inserts[i].key, inserts[i].value), m, t', m')
                  && flags' == if m' == m then flags[i := true] else flags
    ensures AllAttempted(t0, PendingInserts(inserts[..i + 1], was[..i + 1]), missed, t', m',
                         PendingInserts(inserts[..i + 1], flags'[..i + 1]))
    ensures flags'[i + 1..] == was[i + 1..]
  {
    hide AllAttempted, Attempted;
    assert flags[i] == flags[i..][0] == was[i..][0] == was[i];
    assert inserts[..i + 1][..i] == inserts[..i] && was[..i + 1][..i] == was[..i] && flags'[..i + 1][..i] == flags[..i];
    assert flags'[i + 1..] == flags[i..][1..] && was[i..][1..] == was[i + 1..];
    assert PendingInserts(inserts[..i], flags[..i]) + [] == PendingInserts(inserts[..i], flags[..i]);
    assert PendingInserts(inserts[..i], was[..i]) + [] == PendingInserts(inserts[..i], was[..i]);
    if !flags[i] {
      assert flags'[..i + 1] == flags[..i] + [m' == m];
      OneMoreAttempted(t0, PendingInserts(inserts[..i], was[..i]), missed, t, m,
                       PendingInserts(inserts[..i], flags[..i]),
                       Write(inserts[i].key, inserts[i].value), t', m');
    }
  }

  lemma DeletesStart<K>(t: Trie, missed: seq<Nibbles>, deletes: seq<Deletion<K>>, ok: seq<bool>)
    requires t.Valid() && |deletes| == |ok|
    ensures AllAttempted(t, PendingDeletes(deletes[..0], ok[..0]), missed, t, missed,
                         PendingDeletes(deletes[..0], ok[..0]))
  {
  }

  lemma DeletesStep<K>(t0: Trie, missed: seq<Nibbles>, deletes: seq<Deletion<K>>, was: seq<bool>, i: nat,
                     t: Trie, m: seq<Nibbles>, flags: seq<bool>, t': Trie, m': seq<Nibbles>, flags': seq<bool>)
    requires i < |deletes| == |was| == |flags| == |flags'| && Fits(t0, Remove(deletes[i].key)) && flags[i..] == was[i..]
    requires AllAttempted(t0, PendingDeletes(deletes[..i], was[..i]), missed, t, m,
                          PendingDeletes(deletes[..i], flags[..i]))
    requires if flags[i] then t' == t && m' == m && flags' == flags
             else Attempted(t, Remove(deletes[i].key), m, t', m')
                  && flags' == if m' == m then flags[i := true] else flags
    ensures AllAttempted(t0, PendingDeletes(deletes[..i + 1], was[..i + 1]), missed, t', m',
                         PendingDeletes(deletes[..i + 1], flags'[..i + 1]))
    ensures flags'[i + 1..] == was[i + 1..]
  {
    hide AllAttempted, Attempted;
    assert flags[i] == flags[i..][0] == was[i..][0] == was[i];
    assert deletes[..i + 1][..i] == deletes[..i] && was[..i + 1][..i] == was[..i] && flags'[..i + 1][..i] == flags[..i];
    assert flags'[i + 1..] == flags[i..][1..] && was[i..][1..] == was[i + 1..];
    assert PendingDeletes(deletes[..i], flags[..i]) + [] == PendingDeletes(deletes[..i], flags[..i]);
    assert PendingDeletes(deletes[..i], was[..i]) + [] == PendingDeletes(deletes[..i], was[..i]);
    if !flags[i] {
      assert flags'[..i + 1] == flags[..i] + [m' == m];
      OneMoreAttempted(t0, PendingDeletes(deletes[..i], was[..i]), missed, t, m,
                       PendingDeletes(deletes[..i], flags[..i]),
                       Remove(deletes[i].key), t', m');
    }
  }

  lemma RevertsFit<K(!new), V>(c: Codec<K, V>, base: Map, s: State<K, V>)
    requires Good(c, base, s)
    ensures s.trie.Valid() && forall i :: 0 <= i < |s.reverts| ==> Fits(s.trie, RevertOp(s.reverts[i]))
  {
  }

  lemma InsertsFit<K(!new), V>(c: Codec<K, V>, base: Map, s: State<K, V>)
    requires Good(c, base, s)
    ensures s.trie.Valid() && forall i :: 0 <= i < |s.inserts| ==>
              Fits(s.trie, Write(s.inserts[i].key, s.inserts[i].value))
  {
  }

  lemma DeletesFit<K(!new), V>(c: Codec<K, V>, base: Map, s: State<K, V>)
    requires Good(c, base, s)
    ensures s.trie.Valid() && forall i :: 0 <= i < |s.deletes| ==> Fits(s.trie, Remove(s.deletes[i].key))
  {
  }

  lemma RevertAttempted<V>(t: Trie, op: AppliedOp<V>, missed: seq<Nibbles>)
    requires t.Valid() && IsPath(op.revertKey, KEY_NIBBLES)
    requires op.revertValue.Some? ==> op.revertValue.value < |t.values|
    ensures op.revertValue.Some? ==>
              var (t', o) := t.InsertStored(op.revertKey, op.revertValue.value);
              Attempted(t, RevertOp(op), missed, t', if o.InsertNotFound? then missed + [o.path] else missed)
    ensures op.revertValue.None? ==>
              var (t', o) := t.DeleteKey(op.revertKey);
              Attempted(t, RevertOp(op), missed, t', if o.DeleteNotFound? then missed + [o.path] else missed)
  {
    hide Attempted;
    if op.revertValue.Some? {
      RestoreAttempted(t, op.revertKey, op.revertValue.value, missed);
    } else {
      RemoveAttempted(t, op.revertKey, missed);
    }
  }

  /** An attempt on a trie without remote nodes misses none. */
  lemma AttemptedLoaded(t: Trie, op: Op, missed: seq<Nibbles>, t': Trie, missed': seq<Nibbles>)
    requires Attempted(t, op, missed, t', missed')
    ensures Loaded(t.root) ==> Loaded(t'.root) && missed' == missed
  {
    hide Loaded;
    if Loaded(t.root) {
      match op
      case Restore(k, value) => t.StoredInsertLoaded(k, value);
      case Write(k, bytes) => t.ValueInsertLoaded(k, bytes);
      case Remove(k) => t.DeleteKeyLoaded(k);
    }
  }

  lemma LoadedIsInit(t: Trie)
    ensures Loaded(t.root) ==> !t.IsUninit()
  {
  }

  ghost function Keeping<K, V>(log: Log<K, V>, keep: K -> bool): Patch<K, V> {
    map k | k in log && keep(k) :: log[k].inserted
  }

  lemma KeepingStep<K, V>(wanted: Patch<K, V>, log: Log<K, V>, keep: K -> bool, k: K)
    requires k in log
    ensures keep(k) ==> wanted + Keeping(log, keep) == wanted[k := log[k].inserted] + Keeping(log - {k}, keep)
    ensures !keep(k) ==> Keeping(log, keep) == Keeping(log - {k}, keep)
  {
  }

  lemma NothingKept<K, V>(wanted: Patch<K, V>, keep: K -> bool)
    ensures wanted + Keeping(map[], keep) == wanted
  {
  }

  lemma Shrinks<K, V>(m: map<K, V>, k: K)
    requires k in m
    ensures |m - {k}| < |m|
  {
  }

  // ---------------------------------------------------------------------------
  // How many rounds a calculation needs

  lemma {:induction false} PendingRevert<V>(reverts: seq<AppliedOp<V>>, done: seq<bool>, op: Op) returns (i: nat)
    requires |reverts| == |done| && op in PendingReverts(reverts, done)
    ensures i < |reverts| && !done[i] && op == RevertOp(reverts[i])
  {
    var n := |reverts| - 1;
    if op in PendingReverts(reverts[..n], done[..n]) {
      i := PendingRevert(reverts[..n], done[..n], op);
    } else {
      i := n;
    }
  }

  lemma {:induction false} PendingInsert<K, V>(inserts: seq<Insertion<K, V>>, ok: seq<bool>, op: Op) returns (i: nat)
    requires |inserts| == |ok| && op in PendingInserts(inserts, ok)
    ensures i < |inserts| && !ok[i] && op == Write(inserts[i].key, inserts[i].value)
  {
    var n := |inserts| - 1;
    if op in PendingInserts(inserts[..n], ok[..n]) {
      i := PendingInsert(inserts[..n], ok[..n], op);
    } else {
      i := n;
    }
  }

  lemma {:induction false} PendingDelete<K>(deletes: seq<Deletion<K>>, ok: seq<bool>, op: Op) returns (i: nat)
    requires |deletes| == |ok| && op in PendingDeletes(deletes, ok)
    ensures i < |deletes| && !ok[i] && op == Remove(deletes[i].key)
  {
    var n := |deletes| - 1;
    if op in PendingDeletes(deletes[..n], ok[..n]) {
      i := PendingDelete(deletes[..n], ok[..n], op);
    } else {
      i := n;
    }
  }

  lemma {:induction false} RevertsApart<V>(reverts: seq<AppliedOp<V>>, done: seq<bool>)
    requires |reverts| == |done|
    requires forall i, j :: 0 <= i < j < |reverts| && !done[i] && !done[j] ==>
               reverts[i].revertKey != reverts[j].revertKey
    ensures KeysApart(PendingReverts(reverts, done))
  {
    if reverts != [] {
      var n := |reverts| - 1;
      RevertsApart(reverts[..n], done[..n]);
      var before := PendingReverts(reverts[..n], done[..n]);
      forall op | op in before && !done[n]
        ensures op.key != reverts[n].revertKey
      {
        var i := PendingRevert(reverts[..n], done[..n], op);
      }
    }
  }

  lemma {:induction false} InsertsApart<K, V>(inserts: seq<Insertion<K, V>>, ok: seq<bool>)
    requires |inserts| == |ok| && forall i, j :: 0 <= i < j < |inserts| ==> inserts[i].key != inserts[j].key
    ensures KeysApart(PendingInserts(inserts, ok))
  {
    if inserts != [] {
      var n := |inserts| - 1;
      InsertsApart(inserts[..n], ok[..n]);
      var before := PendingInserts(inserts[..n], ok[..n]);
      forall op | op in before
        ensures op.key != inserts[n].key
      {
        var i := PendingInsert(inserts[..n], ok[..n], op);
      }
    }
  }

  lemma {:induction false} DeletesApart<K>(deletes: seq<Deletion<K>>, ok: seq<bool>)
    requires |deletes| == |ok| && forall i, j :: 0 <= i < j < |deletes| ==> deletes[i].key != deletes[j].key
    ensures KeysApart(PendingDeletes(deletes, ok))
  {
    if deletes != [] {
      var n := |deletes| - 1;
      DeletesApart(deletes[..n], ok[..n]);
      var before := PendingDeletes(deletes[..n], ok[..n]);
      forall op | op in before
        ensures op.key != deletes[n].key
      {
        var i := PendingDelete(deletes[..n], ok[..n], op);
      }
    }
  }

  /** The reverts to do are of different keys, fit the trie, and remove only what the parent state does not have. */
  lemma RevertOpsFit<K(!new), V>(c: Codec<K, V>, base: Map, s: State<K, V>)
    requires Good(c, base, s)
    ensures Flagged(s) && KeysApart(RevertOps(s)) && AllFit(s.trie, RevertOps(s))
    ensures forall op :: op in RevertOps(s) && op.Remove? ==> op.key !in base
  {
    forall op | op in RevertOps(s)
      ensures Fits(s.trie, op) && (op.Remove? ==> op.key !in base)
    {
      var i := PendingRevert(s.reverts, s.revertsDone, op);
      assert Undoable(c, base, s.trie.values, s.revertOwners[i], s.reverts[i]);
    }
    forall i, j | 0 <= i < j < |s.reverts| && !s.revertsDone[i] && !s.revertsDone[j]
      ensures s.reverts[i].revertKey != s.reverts[j].revertKey
    {
      assert Undoable(c, base, s.trie.values, s.revertOwners[i], s.reverts[i]);
      assert Undoable(c, base, s.trie.values, s.revertOwners[j], s.reverts[j]);
      assert c.inUse(s.revertOwners[i]) && c.inUse(s.revertOwners[j]);
    }
    RevertsApart(s.reverts, s.revertsDone);
  }

  /** The changes to do are of different keys and fit the trie; removals are of what the parent state has. */
  lemma ChangeOpsFit<K(!new), V>(c: Codec<K, V>, base: Map, s: State<K, V>)
    requires Good(c, base, s)
    ensures Flagged(s) && KeysApart(ChangeOps(s))
    ensures forall op :: op in ChangeOps(s) ==> IsPath(op.key, KEY_NIBBLES) && !op.Restore?
    ensures !RemovesAbsent(c, base, s.wanted) ==> forall op :: op in ChangeOps(s) && op.Remove? ==> op.key in base
  {
    hide Trie.Valid, Trie.AsMap, Overlay, KeysApart, PendingInserts, PendingDeletes;
    StagedApart(c, s);
    ChangesApart(s);
    forall op | op in ChangeOps(s)
      ensures IsPath(op.key, KEY_NIBBLES) && !op.Restore?
      ensures op.Remove? && !RemovesAbsent(c, base, s.wanted) ==> op.key in base
    {
      if op in PendingInserts(s.inserts, s.insertsOk) {
        var i := PendingInsert(s.inserts, s.insertsOk, op);
      } else {
        var i := PendingDelete(s.deletes, s.deletesOk, op);
        assert s.wanted[s.deletes[i].owner] == None;
      }
    }
  }

  lemma ChangesApart<K, V>(s: State<K, V>)
    requires Flagged(s)
    requires forall i, j :: 0 <= i < j < |s.inserts| ==> s.inserts[i].key != s.inserts[j].key
    requires forall i, j :: 0 <= i < j < |s.deletes| ==> s.deletes[i].key != s.deletes[j].key
    requires forall i, j :: 0 <= i < |s.inserts| && 0 <= j < |s.deletes| ==> s.inserts[i].key != s.deletes[j].key
    ensures KeysApart(ChangeOps(s))
  {
    hide PendingInserts, PendingDeletes;
    var a, b := PendingInserts(s.inserts, s.insertsOk), PendingDeletes(s.deletes, s.deletesOk);
    InsertsApart(s.inserts, s.insertsOk);
    DeletesApart(s.deletes, s.deletesOk);
    forall x, y | x in a && y in b
      ensures x.key != y.key
    {
      var i := PendingInsert(s.inserts, s.insertsOk, x);
      var j := PendingDelete(s.deletes, s.deletesOk, y);
    }
  }

  lemma StagedApart<K(!new), V>(c: Codec<K, V>, s: State<K, V>)
    requires Lawful(c) && InUse(c, s.wanted)
    requires InsertsOk(c, s.inserts, s.insertsOk, s.wanted, s.current)
    requires DeletesOk(c, s.deletes, s.deletesOk, s.wanted, s.current)
    ensures forall i, j :: 0 <= i < j < |s.inserts| ==> s.inserts[i].key != s.inserts[j].key
    ensures forall i, j :: 0 <= i < j < |s.deletes| ==> s.deletes[i].key != s.deletes[j].key
    ensures forall i, j :: 0 <= i < |s.inserts| && 0 <= j < |s.deletes| ==> s.inserts[i].key != s.deletes[j].key
  {
  }

  /** The reverts need nodes in at most `r` rounds, and the changes in at most `p`. */
  ghost predicate Affords<K, V>(s: State<K, V>, needRoot: bool, r: nat, p: nat) {
    && Flagged(s) && AllWithin(s.trie.root, RevertOps(s), r) && AllWithin(s.trie.root, ChangeOps(s), p)
    && (needRoot && p == 0 ==> !s.trie.IsUninit())
  }

  lemma EasedChanges(t: Trie, reverts: seq<Op>, changes: seq<Op>, p: nat)
    requires t.Valid() && AllFit(t, reverts) && AllWithin(t.root, changes, p)
    requires forall op :: op in changes ==> |op.key| == KEY_NIBBLES
    requires forall x, y :: x in reverts && y in changes && x.Remove? && y.Remove? ==> x.key != y.key
    ensures AllWithin(AttemptAll(t, reverts).0.root, changes, p)
  {
    forall op | op in changes
      ensures Within(AttemptAll(t, reverts).0.root, op, p)
    {
      AllEaseWithin(t, reverts, op, p);
    }
  }

  lemma StaysInit(t: Trie, ops: seq<Op>)
    requires t.Valid() && AllFit(t, ops)
    ensures AttemptAll(t, ops).0.IsUninit() ==> t.IsUninit()
  {
    if !t.IsUninit() {
      InitIsWalked(t);
      AllKeepWalked(t, ops, []);
    }
  }

  /** A round that missed nodes, and the loading of them, use up one of the rounds. */
  lemma RoundPays<K(!new), V>(c: Codec<K, V>, base: Map, s: State<K, V>, t: State<K, V>, missed: seq<Nibbles>,
                              needRoot: bool, r: nat, p: nat) returns (r': nat, p': nat)
    requires Good(c, base, s) && !RemovesAbsent(c, base, s.wanted) && Affords(s, needRoot, r, p)
    requires Tried(s, t, missed, needRoot) && t.trie.Valid() && missed != []
    ensures r' + p' < r + p && Affords(t.(trie := LoadAll(t.trie, missed)), needRoot, r', p')
  {
    hide Good, RemovesAbsent, Trie.Valid, AttemptAll, LoadAll, AllWithin, AllDue, RevertOps, ChangeOps, KeysApart;
    RevertOpsFit(c, base, s);
    ChangeOpsFit(c, base, s);
    var u := t.(trie := LoadAll(t.trie, missed));
    assert RevertOps(u) == RevertOps(t) && ChangeOps(u) == ChangeOps(t) by { SameOps(t, u); }
    AttemptsDue(s.trie, RevertOps(s), r);
    EasedChanges(s.trie, RevertOps(s), ChangeOps(s), p);
    LoadedSomething(t.trie, missed);
    var (t1, m1, l1) := AttemptAll(s.trie, RevertOps(s));
    if m1 != [] {
      AllPaid(t1, m1, l1, r - 1);
      LoadAllWithin(t1, m1, ChangeOps(s), p);
      r', p' := r - 1, p;
    } else {
      ChangesPay(s.trie, t1, ChangeOps(s), RevertOps(s), missed, needRoot, p);
      NoneWithin(u.trie.root);
      r', p' := 0, p - 1;
    }
  }

  lemma SameOps<K, V>(s: State<K, V>, t: State<K, V>)
    requires Flagged(s) && t == s.(trie := t.trie)
    ensures RevertOps(s) == RevertOps(t) && ChangeOps(s) == ChangeOps(t)
  {
  }

  lemma NoneWithin(s: Sparse)
    ensures AllWithin(s, [], 0)
  {
  }

  lemma ChangesPay(t: Trie, t1: Trie, changes: seq<Op>, reverts: seq<Op>, missed: seq<Nibbles>, needRoot: bool, p: nat)
    requires t.Valid() && AllFit(t, reverts) && t1 == AttemptAll(t, reverts).0
    requires AllFit(t1, changes) && KeysApart(changes) && AllWithin(t1.root, changes, p)
    requires needRoot && p == 0 ==> !t.IsUninit()
    requires var (t2, m2, l2) := AttemptAll(t1, changes);
             missed == (m2 + if needRoot && t2.IsUninit() then [[]] else []) && missed != []
    ensures p > 0
    ensures var (t2, m2, l2) := AttemptAll(t1, changes); AllWithin(LoadAll(t2, missed).root, l2, p - 1)
  {
    hide AttemptAll, Trie.Valid, AllWithin, AllDue;
    StaysInit(t, reverts);
    StaysInit(t1, changes);
    AttemptsDue(t1, changes, p);
    var (t2, m2, l2) := AttemptAll(t1, changes);
    if l2 == [] {
      NoneDue(t2.root, missed, p - 1);
    } else {
      AllDueMore(t2.root, m2, if needRoot && t2.IsUninit() then [[]] else [], l2, p - 1);
    }
    AllPaid(t2, missed, l2, p - 1);
  }

  lemma NoneDue(s: Sparse, missed: seq<Nibbles>, d: nat)
    ensures AllDue(s, missed, [], d)
  {
  }

  // ---------------------------------------------------------------------------
  // What staging leads to

  /** What a wanted change does to the trie. */
  ghost function WantOp<K, V>(c: Codec<K, V>, k: K, want: Option<V>): Op {
    if want.Some? then Write(c.keyOf(k), c.encode(want.value)) else Remove(c.keyOf(k))
  }

  /** The previous calculation left what is wanted at the key of `k`. */
  ghost predicate Unchanged<K, V>(log: Log<K, V>, wants: Patch<K, V>, k: K) {
    k in log && k in wants && log[k].inserted == wants[k]
  }

  /** The previous change of `k` is not wanted any more. */
  ghost predicate Unwanted<K, V>(log: Log<K, V>, wants: Patch<K, V>, keep: K -> bool, k: K) {
    k in log && if k in wants then log[k].inserted != wants[k] else !keep(k)
  }

  /** What is staged is to go from `log` to `wants`, keeping what `keep` says. */
  ghost predicate StagedFor<K, V>(c: Codec<K, V>, log: Log<K, V>, wants: Patch<K, V>, keep: K -> bool, s: State<K, V>) {
    && |s.reverts| == |s.revertOwners|
    && (forall i :: 0 <= i < |s.reverts| ==>
          Unwanted(log, wants, keep, s.revertOwners[i]) && s.reverts[i] == log[s.revertOwners[i]])
    && (forall i :: 0 <= i < |s.inserts| ==>
          var ins := s.inserts[i];
          ins.owner in wants && !Unchanged(log, wants, ins.owner)
          && Write(ins.key, ins.value) == WantOp(c, ins.owner, wants[ins.owner]))
    && (forall i :: 0 <= i < |s.deletes| ==>
          var del := s.deletes[i];
          del.owner in wants && !Unchanged(log, wants, del.owner)
          && Remove(del.key) == WantOp(c, del.owner, wants[del.owner]))
  }

  /** Asking for `want` at the key of `k`. */
  ghost function Wanting<K, V>(c: Codec<K, V>, s: State<K, V>, k: K, want: Option<V>): State<K, V> {
    if k in s.previous && s.previous[k].inserted == want then Kept(s, k)
    else
      var t := if k in s.previous then Doomed(s, k) else s;
      if want.Some? then InsertStaged(c, t, k, want.value) else DeleteStaged(c, t, k)
  }

  lemma KeptStaged<K, V>(c: Codec<K, V>, log: Log<K, V>, wants: Patch<K, V>, keep: K -> bool, s: State<K, V>, k: K)
    requires StagedFor(c, log, wants, keep, s) && k in s.previous
    ensures StagedFor(c, log, wants, keep, Kept(s, k))
  {
  }

  lemma DoomedStaged<K, V>(c: Codec<K, V>, log: Log<K, V>, wants: Patch<K, V>, keep: K -> bool, s: State<K, V>, k: K)
    requires StagedFor(c, log, wants, keep, s) && Unwanted(log, wants, keep, k)
    requires k in s.previous && s.previous[k] == log[k]
    ensures StagedFor(c, log, wants, keep, Doomed(s, k))
  {
  }

  lemma PushStaged<K, V>(c: Codec<K, V>, log: Log<K, V>, wants: Patch<K, V>, keep: K -> bool, s: State<K, V>, k: K)
    requires StagedFor(c, log, wants, keep, s) && k in wants && !Unchanged(log, wants, k)
    ensures wants[k].Some? ==> StagedFor(c, log, wants, keep, InsertStaged(c, s, k, wants[k].value))
    ensures wants[k].None? ==> StagedFor(c, log, wants, keep, DeleteStaged(c, s, k))
  {
  }

  lemma WantingStaged<K, V>(c: Codec<K, V>, log: Log<K, V>, wants: Patch<K, V>, keep: K -> bool, s: State<K, V>, k: K)
    requires StagedFor(c, log, wants, keep, s) && k in wants
    requires k in s.previous <==> k in log
    requires k in log ==> s.previous[k] == log[k]
    ensures StagedFor(c, log, wants, keep, Wanting(c, s, k, wants[k]))
  {
    hide StagedFor;
    if Unchanged(log, wants, k) {
      KeptStaged(c, log, wants, keep, s, k);
    } else {
      if k in log {
        DoomedStaged(c, log, wants, keep, s, k);
      }
      PushStaged(c, log, wants, keep, if k in log then Doomed(s, k) else s, k);
    }
  }

  /** The reverts and the changes of going from `log` to `wants` need nodes in at most `r` and `p` rounds. */
  ghost predicate Affordable<K, V>(c: Codec<K, V>, root: Sparse, log: Log<K, V>, wants: Patch<K, V>, keep: K -> bool,
                                   r: nat, p: nat) {
    && (forall k :: k in log && Unwanted(log, wants, keep, k) ==> Within(root, RevertOp(log[k]), r))
    && (forall k :: k in wants && !Unchanged(log, wants, k) ==> Within(root, WantOp(c, k, wants[k]), p))
  }

  lemma StagedAffords<K, V>(c: Codec<K, V>, log: Log<K, V>, wants: Patch<K, V>, keep: K -> bool, s: State<K, V>,
                            needRoot: bool, r: nat, p: nat)
    requires StagedFor(c, log, wants, keep, s) && Flagged(s) && Affordable(c, s.trie.root, log, wants, keep, r, p)
    requires needRoot && p == 0 ==> !s.trie.IsUninit()
    ensures Affords(s, needRoot, r, p)
  {
    hide Within, Unchanged;
    forall op | op in RevertOps(s)
      ensures Within(s.trie.root, op, r)
    {
      var i := PendingRevert(s.reverts, s.revertsDone, op);
    }
    forall op | op in ChangeOps(s)
      ensures Within(s.trie.root, op, p)
    {
      if op in PendingInserts(s.inserts, s.insertsOk) {
        var i := PendingInsert(s.inserts, s.insertsOk, op);
      } else {
        var i := PendingDelete(s.deletes, s.deletesOk, op);
      }
    }
  }

  /** At most `n` rounds of loading are needed. */
  ghost predicate Payable<K, V>(s: State<K, V>, needRoot: bool, n: nat) {
    exists r: nat, p: nat :: r + p <= n && Affords(s, needRoot, r, p)
  }

  lemma RoundPaid<K(!new), V>(c: Codec<K, V>, base: Map, s: State<K, V>, t: State<K, V>, missed: seq<Nibbles>,
                              needRoot: bool, n: nat)
    requires Good(c, base, s) && !RemovesAbsent(c, base, s.wanted) && Payable(s, needRoot, n)
    requires Tried(s, t, missed, needRoot) && t.trie.Valid() && missed != []
    ensures n > 0 && Payable(t.(trie := LoadAll(t.trie, missed)), needRoot, n - 1)
  {
    hide Good, RemovesAbsent, Affords, Tried, Trie.Valid, LoadAll;
    var r: nat, p: nat :| r + p <= n && Affords(s, needRoot, r, p);
    var r', p' := RoundPays(c, base, s, t, missed, needRoot, r, p);
  }

  /** Going from `log` to `wants` takes no more rounds of loading than a calculation has, and removes only keys of
      the parent state. */
  ghost predicate Feasible<K, V>(c: Codec<K, V>, base: Map, trie: Trie, log: Log<K, V>, wants: Patch<K, V>,
                                 keep: K -> bool, needRoot: bool) {
    && !RemovesAbsent(c, base, wants)
    && exists r: nat, p: nat :: r + p < ATTEMPTS && Affordable(c, trie.root, log, wants, keep, r, p)
                                && (needRoot && p == 0 ==> !trie.IsUninit())
  }

  lemma FeasiblePresent<K, V>(c: Codec<K, V>, base: Map, trie: Trie, log: Log<K, V>, wants: Patch<K, V>,
                              keep: K -> bool, needRoot: bool)
    requires Feasible(c, base, trie, log, wants, keep, needRoot)
    ensures !RemovesAbsent(c, base, wants)
  {
  }

  lemma SettledTrie<K(!new), V>(c: Codec<K, V>, base: Map, s: State<K, V>)
    requires Settled(c, base, s)
    ensures s.trie.Valid() && s.trie.AsMap() == Overlay(c, base, s.wanted)
  {
  }

  lemma SettledLog<K(!new), V>(c: Codec<K, V>, base: Map, s: State<K, V>)
    requires Settled(c, base, s)
    ensures s.previous.Keys == s.wanted.Keys && forall k :: k in s.previous ==> s.wanted[k] == s.previous[k].inserted
  {
  }

  lemma StagedPayable<K, V>(c: Codec<K, V>, base: Map, log: Log<K, V>, wants: Patch<K, V>, keep: K -> bool,
                            s: State<K, V>, needRoot: bool)
    requires StagedFor(c, log, wants, keep, s) && Flagged(s) && Feasible(c, base, s.trie, log, wants, keep, needRoot)
    ensures Payable(s, needRoot, ATTEMPTS - 1)
  {
    hide StagedFor, Flagged, Affordable, Affords, RemovesAbsent;
    var r: nat, p: nat :| r + p < ATTEMPTS && Affordable(c, s.trie.root, log, wants, keep, r, p)
                          && (needRoot && p == 0 ==> !s.trie.IsUninit());
    StagedAffords(c, log, wants, keep, s, needRoot, r, p);
  }

  /** What is kept of a settled trie removes only keys of the parent state. */
  lemma KeptRemovesPresent<K(!new), V>(c: Codec<K, V>, base: Map, s: State<K, V>, wants: Patch<K, V>, keep: K -> bool)
    requires Settled(c, base, s)
    ensures RemovesAbsent(c, base, wants + Keeping(s.previous - wants.Keys, keep)) ==> RemovesAbsent(c, base, wants)
  {
    SettledRemovesPresent(c, base, s);
  }

  /** On a trie of which nothing is loaded, a calculation can do whatever removes only stored keys with at most eight
      branches on their way. */
  lemma FreshFeasible<K, V>(c: Codec<K, V>, database: Full, wants: Patch<K, V>, keep: K -> bool, needRoot: bool)
    requires Canonical(database, KEY_NIBBLES)
    requires forall k :: k in wants && wants[k].None? ==>
               Get(database, c.keyOf(k)).Some? && IsPath(c.keyOf(k), KEY_NIBBLES)
               && Branches(database, c.keyOf(k)) <= ATTEMPTS - 2
    ensures Feasible(c, Contents(database, KEY_NIBBLES), Trie(Remote(database), []), map[], wants, keep, needRoot)
  {
    assert Affordable(c, Remote(database), map[], wants, keep, 0, ATTEMPTS - 1);
  }

  /** Nothing is loaded and nothing is to be done. */
  ghost predicate Idle<K, V>(s: State<K, V>)
    requires Flagged(s)
  {
    s.trie.IsUninit() && RevertOps(s) == [] && ChangeOps(s) == []
  }

  /** What the previous calculation left is what is wanted. */
  ghost predicate NothingNew<K, V>(log: Log<K, V>, wants: Patch<K, V>, keep: K -> bool) {
    (forall k :: k in log ==> !Unwanted(log, wants, keep, k)) && (forall k :: k in wants ==> Unchanged(log, wants, k))
  }

  lemma StagedIdle<K(!new), V>(c: Codec<K, V>, base: Map, log: Log<K, V>, wants: Patch<K, V>, keep: K -> bool,
                               s: State<K, V>)
    requires Good(c, base, s) && s.previous == map[] && s.effects == []
    requires log.Keys == s.patch.Keys && forall k :: k in log ==> s.patch[k] == log[k].inserted
    requires s.wanted == wants + Keeping(log - wants.Keys, keep) && StagedFor(c, log, wants, keep, s)
    ensures Flagged(s) && (Idle(s) <==> s.trie.IsUninit() && NothingNew(log, wants, keep))
  {
    hide Lawful, Trie.Valid, Trie.AsMap, Overlay;
    NothingMarked(s.revertsDone, s.insertsOk, s.deletesOk);
    if s.reverts == [] && s.inserts == [] && s.deletes == [] {
      StagedNothing(c, base, log, wants, keep, s);
    } else {
      assert RevertOps(s) + ChangeOps(s) != [];
    }
  }

  lemma NothingMarked(revertsDone: seq<bool>, insertsOk: seq<bool>, deletesOk: seq<bool>)
    requires EffectsOk([], revertsDone, insertsOk, deletesOk)
    ensures forall i :: 0 <= i < |revertsDone| ==> !revertsDone[i]
    ensures forall i :: 0 <= i < |insertsOk| ==> !insertsOk[i]
    ensures forall i :: 0 <= i < |deletesOk| ==> !deletesOk[i]
  {
    forall i | 0 <= i < |revertsDone| ensures !revertsDone[i] { assert !Set(revertsDone, i); }
    forall i | 0 <= i < |insertsOk| ensures !insertsOk[i] { assert !Set(insertsOk, i); }
    forall i | 0 <= i < |deletesOk| ensures !deletesOk[i] { assert !Set(deletesOk, i); }
  }

  /** Nothing is staged only when nothing is new. */
  lemma StagedNothing<K(!new), V>(c: Codec<K, V>, base: Map, log: Log<K, V>, wants: Patch<K, V>, keep: K -> bool,
                                  s: State<K, V>)
    requires Good(c, base, s) && s.previous == map[] && s.reverts == [] && s.inserts == [] && s.deletes == []
    requires log.Keys == s.patch.Keys && forall k :: k in log ==> s.patch[k] == log[k].inserted
    requires s.wanted == wants + Keeping(log - wants.Keys, keep)
    ensures NothingNew(log, wants, keep)
  {
    hide Lawful, Trie.Valid, Trie.AsMap, Overlay;
    assert s.patch.Keys <= s.current.Keys && s.wanted.Keys <= s.current.Keys;
  }

  lemma DoneIsInit(t: Trie, ops: seq<Op>)
    requires t.Valid() && AllFit(t, ops) && ops != [] && AttemptAll(t, ops).1 == []
    ensures !AttemptAll(t, ops).0.IsUninit()
  {
    var n := |ops| - 1;
    var t1 := AttemptAll(t, ops[..n]).0;
    assert Fits(t, ops[n]) by { assert ops[n] in ops; }
    AttemptKeepsWalked(t1, ops[n], []);
  }

  /** A round on an idle trie leaves it as it is; one on any other that misses nothing leaves a root. */
  lemma TriedIdle<K, V>(s: State<K, V>, t: State<K, V>, missed: seq<Nibbles>)
    requires Tried(s, t, missed, false)
    ensures Idle(s) ==> missed == [] && t.trie == s.trie && t.trie.IsUninit()
    ensures !Idle(s) && missed == [] ==> !t.trie.IsUninit()
  {
    hide RevertOps, ChangeOps, Trie.Valid, AllFit;
    var (t1, m1, l1) := AttemptAll(s.trie, RevertOps(s));
    StaysInit(s.trie, RevertOps(s));
    if m1 == [] {
      StaysInit(t1, ChangeOps(s));
      if RevertOps(s) != [] {
        DoneIsInit(s.trie, RevertOps(s));
      }
      if ChangeOps(s) != [] && missed == [] {
        DoneIsInit(t1, ChangeOps(s));
      }
    }
  }

  class PatchedTrie<K(!new, ==), V(==)> {
    const codec: Codec<K, V>
    const hashing: Hashing
    ghost const base: Map
    /** Whose storage this is; none for the account trie. */
    ghost const account: Option<nat>

    /** The trie with the hashes it keeps, and without them. */
    var hashed: HashedTries.HashedTrie
    ghost var trie: Trie

    var previous: Log<K, V>
    var current: Log<K, V>
    var reverts: seq<AppliedOp<V>>
    var revertsDone: seq<bool>
    var inserts: seq<Insertion<K, V>>
    var insertsOk: seq<bool>
    var deletes: seq<Deletion<K>>
    var deletesOk: seq<bool>
    var missing: seq<Nibbles>

    ghost var wanted: Patch<K, V>
    ghost var patch: Patch<K, V>
    ghost var revertOwners: seq<K>
    ghost var effects: seq<Effect>

    ghost function Now(): State<K, V>
      reads this
    {
      State(trie, previous, current, reverts, revertsDone, inserts, insertsOk, deletes, deletesOk,
            wanted, patch, revertOwners, effects)
    }

    /** The kept hashes are right. */
    ghost predicate Linked()
      reads this`hashed, this`trie
    {
      trie == hashed.Plain() && hashed.Valid(hashing)
    }

    ghost predicate Inv()
      reads this
    {
      Good(codec, base, Now()) && Linked()
    }

    ghost predicate Synced()
      reads this
    {
      Settled(codec, base, Now()) && Linked()
    }

    /** A trie of which nothing is loaded, over the database trie of the parent state. */
    constructor (codec: Codec<K, V>, hashing: Hashing, database: Full, ghost account: Option<nat>)
      requires Lawful(codec) && Canonical(database, KEY_NIBBLES)
      ensures this.codec == codec && this.hashing == hashing
      ensures base == Contents(database, KEY_NIBBLES) && this.account == account
      ensures Synced() && wanted == map[] && trie == Trie(Remote(database), [])
    {
      this.codec := codec;
      this.hashing := hashing;
      base := Contents(database, KEY_NIBBLES);
      this.account := account;
      hashed := HashedTries.HashedTrie(HashedTries.RemoteNode(database), []);
      trie := Trie(Remote(database), []);
      previous, current := map[], map[];
      reverts, revertsDone, inserts, insertsOk, deletes, deletesOk, missing := [], [], [], [], [], [], [];
      wanted, patch, revertOwners, effects := map[], map[], [], [];
      OverlayEmpty<K, V>(codec, Contents(database, KEY_NIBBLES));
    }

    /** Starts a calculation. */
    method Clear()
      requires Synced()
      modifies this
      ensures Inv() && Now() == Cleared(old(Now())) && missing == []
    {
      hide Good, Settled, Linked;
      ClearKeeps(codec, base, Now());
      DropStaged();
      Restart();
    }

    method Restart()
      modifies this`current, this`missing, this`patch, this`wanted, this`effects
      ensures current == map[] && missing == [] && patch == old(wanted) && wanted == map[] && effects == []
    {
      current, missing := map[], [];
      patch, wanted, effects := wanted, map[], [];
    }

    /** Forgets what is staged and keeps everything as the last calculation left it. */
    method Rest()
      requires Synced()
      modifies this
      ensures Synced() && trie == old(trie) && previous == old(previous) && wanted == old(wanted)
    {
      hide Linked;
      DropStaged();
      current, missing := map[], [];
    }

    method DropStaged()
      modifies this`reverts, this`revertsDone, this`inserts, this`insertsOk, this`deletes, this`deletesOk,
               this`revertOwners
      ensures reverts == [] && revertsDone == [] && revertOwners == []
      ensures inserts == [] && insertsOk == [] && deletes == [] && deletesOk == []
    {
      reverts, revertsDone, revertOwners := [], [], [];
      inserts, insertsOk := [], [];
      deletes, deletesOk := [], [];
    }

    /** Asks for `want` at the key of `k`. */
    method Stage(k: K, want: Option<V>)
      requires Inv() && effects == [] && k !in wanted && codec.inUse(k)
      modifies this
      ensures Inv() && missing == old(missing) && Now() == Wanting(codec, old(Now()), k, want)
      ensures effects == [] && trie == old(trie) && patch == old(patch)
      ensures wanted == old(wanted)[k := want] && previous == old(previous) - {k}
    {
      hide Good, Linked;
      if k in previous {
        if previous[k].inserted == want {
          KeepKeeps(codec, base, Now(), k);
          Keep(k);
          return;
        }
        DoomKeeps(codec, base, Now(), k);
        Doom(k);
      }
      if want.Some? {
        StageInsertKeeps(codec, base, Now(), k, want.value);
        PushInsert(k, want.value);
      } else {
        StageDeleteKeeps(codec, base, Now(), k);
        PushDelete(k);
      }
    }

    /** Asks for everything in `wants`, in any order. */
    method StageAll(wants: Patch<K, V>, ghost keep: K -> bool)
      requires Inv() && effects == [] && wanted == map[] && InUse(codec, wants)
      requires StagedFor(codec, previous, wants, keep, Now())
      modifies this
      ensures Inv() && effects == [] && trie == old(trie) && patch == old(patch) && missing == old(missing)
      ensures wanted == wants && previous == old(previous) - wants.Keys
      ensures StagedFor(codec, old(previous), wants, keep, Now())
    {
      hide Good, Linked, StagedFor, Wanting;
      var todo := wants.Keys;
      while todo != {}
        invariant Inv() && effects == [] && trie == old(trie) && patch == old(patch) && missing == old(missing)
        invariant todo <= wants.Keys
        invariant wanted == wants - todo && previous == old(previous) - (wants.Keys - todo)
        invariant StagedFor(codec, old(previous), wants, keep, Now())
      {
        var k :| k in todo;
        WantingStaged(codec, old(previous), wants, keep, Now(), k);
        Stage(k, wants[k]);
        assert wanted == wants - (todo - {k});
        assert previous == old(previous) - (wants.Keys - (todo - {k}));
        todo := todo - {k};
      }
      assert wants - {} == wants;
    }

    method Keep(k: K)
      requires k in previous
      modifies this`previous, this`current, this`wanted
      ensures Now() == Kept(old(Now()), k)
    {
      wanted := wanted[k := previous[k].inserted];
      previous, current := previous - {k}, current[k := previous[k]];
    }

    method Doom(k: K)
      requires k in previous
      modifies this`previous, this`reverts, this`revertsDone, this`revertOwners
      ensures Now() == Doomed(old(Now()), k)
    {
      reverts, revertsDone, revertOwners := reverts + [previous[k]], revertsDone + [false], revertOwners + [k];
      previous := previous - {k};
    }

    method PushInsert(k: K, v: V)
      modifies this`inserts, this`insertsOk, this`wanted
      ensures Now() == InsertStaged(codec, old(Now()), k, v)
    {
      inserts := inserts + [Insertion(codec.keyOf(k), codec.encode(v), k, v)];
      insertsOk := insertsOk + [false];
      wanted := wanted[k := Some(v)];
    }

    method PushDelete(k: K)
      modifies this`deletes, this`deletesOk, this`wanted
      ensures Now() == DeleteStaged(codec, old(Now()), k)
    {
      deletes, deletesOk := deletes + [Deletion(codec.keyOf(k), k)], deletesOk + [false];
      wanted := wanted[k := None];
    }

    /** Decides over what is left of the previous calculation: kept, or to be reverted. */
    method Drain(keep: K -> bool, ghost log: Log<K, V>, ghost wants: Patch<K, V>)
      requires Inv() && effects == [] && previous == log - wants.Keys && StagedFor(codec, log, wants, keep, Now())
      modifies this`previous, this`current, this`wanted, this`reverts, this`revertsDone, this`revertOwners
      ensures Inv() && effects == [] && previous == map[] && StagedFor(codec, log, wants, keep, Now())
      ensures wanted == old(wanted) + Keeping(old(previous), keep)
    {
      hide Good, Linked, StagedFor, Keeping;
      while previous != map[]
        invariant Inv() && StagedFor(codec, log, wants, keep, Now())
        invariant forall k :: k in previous ==> k in log && k !in wants && previous[k] == log[k]
        invariant wanted + Keeping(previous, keep) == old(wanted) + Keeping(old(previous), keep)
        decreases |previous|
      {
        var k :| k in previous;
        KeepingStep(wanted, previous, keep, k);
        Shrinks(previous, k);
        DrainOne(k, keep, log, wants);
      }
      NothingKept(wanted, keep);
    }

    method DrainOne(k: K, keep: K -> bool, ghost log: Log<K, V>, ghost wants: Patch<K, V>)
      requires Inv() && effects == [] && k in previous && k in log && k !in wants && previous[k] == log[k]
      requires StagedFor(codec, log, wants, keep, Now())
      modifies this`previous, this`current, this`wanted, this`reverts, this`revertsDone, this`revertOwners
      ensures Inv() && StagedFor(codec, log, wants, keep, Now()) && previous == old(previous) - {k}
      ensures wanted == if keep(k) then old(wanted)[k := old(previous)[k].inserted] else old(wanted)
    {
      hide Good, Linked, StagedFor;
      if keep(k) {
        KeepKeeps(codec, base, Now(), k);
        KeptStaged(codec, log, wants, keep, Now(), k);
        Keep(k);
      } else {
        DoomKeeps(codec, base, Now(), k);
        DoomedStaged(codec, log, wants, keep, Now(), k);
        Doom(k);
      }
    }

    /** Stages what goes from the previous calculation to `wants`, keeping of the rest what `keep` says. */
    method StageChanges(wants: Patch<K, V>, keep: K -> bool, ghost needRoot: bool)
      requires Synced() && InUse(codec, wants)
      modifies this
      ensures Inv() && previous == map[] && trie == old(trie) && missing == [] && Flagged(Now())
      ensures wanted == wants + Keeping(old(previous) - wants.Keys, keep)
      ensures Idle(Now()) <==> old(trie.IsUninit()) && NothingNew(old(previous), wants, keep)
      ensures Feasible(codec, base, old(trie), old(previous), wants, keep, needRoot) ==>
                !RemovesAbsent(codec, base, wanted) && Payable(Now(), needRoot, ATTEMPTS - 1)
    {
      hide Good, Linked, Keeping, StagedFor, Idle, NothingNew, Feasible, RemovesAbsent, Payable, Settled;
      ghost var s := Now();
      StageFor(wants, keep);
      SettledLog(codec, base, s);
      StagedIdle(codec, base, s.previous, wants, keep, Now());
      if Feasible(codec, base, s.trie, s.previous, wants, keep, needRoot) {
        KeptRemovesPresent(codec, base, s, wants, keep);
        FeasiblePresent(codec, base, s.trie, s.previous, wants, keep, needRoot);
        StagedPayable(codec, base, s.previous, wants, keep, Now(), needRoot);
      }
    }

    method StageFor(wants: Patch<K, V>, keep: K -> bool)
      requires Synced() && InUse(codec, wants)
      modifies this
      ensures Inv() && previous == map[] && trie == old(trie) && missing == [] && patch == old(wanted) && effects == []
      ensures wanted == wants + Keeping(old(previous) - wants.Keys, keep)
      ensures StagedFor(codec, old(previous), wants, keep, Now())
    {
      hide Good, Settled, Linked, Keeping;
      Clear();
      StageAll(wants, keep);
      Drain(keep, old(previous), wants);
    }

    /** Ends a calculation in which everything is done. */
    method Commit()
      requires Inv() && previous == map[] && AllDone(Now())
      modifies this`previous, this`current
      ensures Synced()
    {
      hide Good, Settled, Linked;
      CommitKeeps(codec, base, Now());
      previous, current := current, previous;
    }

    /** Loads the nodes that were reported missing. */
    method LoadMissing()
      requires Inv()
      modifies this`hashed, this`trie, this`missing
      ensures Inv() && missing == []
      ensures old(trie).Valid() && trie == LoadAll(old(trie), old(missing))
      ensures forall k :: k in old(missing) || Walked(old(trie).root, k) ==> Walked(trie.root, k)
    {
      hide Good, Overlay, Walked, Linked;
      TrieIsValid(codec, base, Now());
      while missing != []
        invariant Inv() && trie.Valid() && LoadAll(trie, missing) == LoadAll(old(trie), old(missing))
        invariant forall k :: k in old(missing) ==> k in missing || Walked(trie.root, k)
        invariant forall k :: Walked(old(trie).root, k) ==> Walked(trie.root, k)
        decreases |missing|
      {
        LoadKeeps(codec, base, Now(), trie.AddProof(missing[0]));
        AddProof(missing[0]);
        missing := missing[1..];
      }
    }

    method AddProof(path: Nibbles)
      requires Linked()
      modifies this`hashed, this`trie
      ensures Linked() && trie == old(trie).AddProof(path)
    {
      hashed := hashed.AddProof(hashing, path);
      trie := hashed.Plain();
    }

    method WriteStored(k: Nibbles, value: nat) returns (outcome: InsertOutcome)
      requires Linked() && IsPath(k, KEY_NIBBLES) && value < |trie.values|
      modifies this`hashed, this`trie
      ensures Linked() && (trie, outcome) == old(trie).InsertStored(k, value)
    {
      var (t, o) := hashed.InsertStored(hashing, k, value);
      hashed, trie, outcome := t, t.Plain(), o;
    }

    method WriteNew(k: Nibbles, value: Bytes) returns (outcome: InsertOutcome)
      requires Linked() && IsPath(k, KEY_NIBBLES)
      modifies this`hashed, this`trie
      ensures Linked() && (trie, outcome) == old(trie).InsertValue(k, value)
    {
      var (t, o) := hashed.InsertValue(hashing, k, value);
      hashed, trie, outcome := t, t.Plain(), o;
    }

    method Delete(k: Nibbles) returns (outcome: DeleteOutcome)
      requires Linked() && IsPath(k, KEY_NIBBLES)
      modifies this`hashed, this`trie
      ensures Linked() && (trie, outcome) == old(trie).DeleteKey(k)
    {
      var (t, o) := hashed.DeleteKey(hashing, k);
      hashed, trie, outcome := t, t.Plain(), o;
    }

    /** The root hash; the hashes computed for it are kept. */
    method RootHash() returns (root: Bytes)
      requires Linked() && !trie.IsUninit()
      modifies this`hashed
      ensures Linked() && root == trie.RootHash(hashing)
    {
      var (t, r) := hashed.RootHash(hashing);
      hashed, root := t, r;
    }

    /** Puts the parent's value back on the trie, or says which node is missing. */
    method TryRevert(op: AppliedOp<V>) returns (path: Option<Nibbles>)
      requires Linked() && trie.Valid() && IsPath(op.revertKey, KEY_NIBBLES)
      requires op.revertValue.Some? <==> op.revertKey in base
      requires op.revertValue.Some? ==>
                 op.revertValue.value < |trie.values| && trie.values[op.revertValue.value] == base[op.revertKey]
      requires op.revertValue.None? ==> op.revertKey in trie.AsMap()
      modifies this`hashed, this`trie
      ensures Linked() && trie.Valid() && trie.values == old(trie).values
      ensures path.Some? ==> trie == old(trie)
      ensures path.None? ==> trie.AsMap() == Restored(old(trie).AsMap(), base, op.revertKey)
      ensures Attempted(old(trie), RevertOp(op), missing, trie, if path.Some? then missing + [path.value] else missing)
    {
      hide Linked, Trie.AsMap, Trie.Valid, Trie.InsertStored, Trie.DeleteKey, Attempted;
      RevertAttempted(trie, op, missing);
      match op.revertValue {
        case Some(value) =>
          var outcome := WriteStored(op.revertKey, value);
          path := if outcome.InsertNotFound? then Some(outcome.path) else None;
        case None =>
          var outcome := Delete(op.revertKey);
          match outcome {
            case DeleteNotFound(p) =>
              path := Some(p);
            case KeyNotFound =>
              assert false;  // the calculation would be given up here
            case DeleteOk(_) =>
              path := None;
          }
      }
    }

    /** Carries out revert `i`, unless nodes are missing. */
    method RevertOne(i: nat)
      requires Inv() && previous == map[] && i < |reverts| && i < |revertsDone| && !revertsDone[i]
      modifies this`hashed, this`trie, this`revertsDone, this`missing, this`patch, this`effects
      ensures Inv()
      ensures if missing == old(missing)
              then revertsDone == old(revertsDone)[i := true] && effects == old(effects) + [Reverted(i)]
              else |missing| > |old(missing)| && revertsDone == old(revertsDone) && effects == old(effects)
      ensures Attempted(old(trie), RevertOp(reverts[i]), old(missing), trie, missing)
    {
      hide Good, Linked, Overlay, Trie.AsMap, Trie.Valid, Restored, Attempted, RevertOp;
      ghost var s := Now();
      FlagCounts(codec, base, s);
      RevertReady(codec, base, s, i);
      var path := TryRevert(reverts[i]);
      if path.Some? {
        missing := missing + [path.value];
      } else {
        RevertKeeps(codec, base, s, i, trie);
        MarkReverted(i);
      }
    }

    method MarkReverted(i: nat)
      requires i < |revertsDone| && i < |revertOwners|
      modifies this`revertsDone, this`patch, this`effects
      ensures Now() == RevertDone(old(Now()), i, trie)
    {
      revertsDone := revertsDone[i := true];
      patch, effects := patch - {revertOwners[i]}, effects + [Reverted(i)];
    }

    /** Carries out insertion `i`, unless nodes are missing. */
    method InsertOne(i: nat)
      requires Inv() && previous == map[] && AllSet(revertsDone)
      requires i < |inserts| && i < |insertsOk| && !insertsOk[i]
      modifies this`hashed, this`trie, this`current, this`insertsOk, this`missing, this`patch, this`effects
      ensures Inv()
      ensures if missing == old(missing)
              then insertsOk == old(insertsOk)[i := true] && effects == old(effects) + [Inserted(i)]
              else |missing| > |old(missing)| && insertsOk == old(insertsOk) && effects == old(effects)
      ensures Attempted(old(trie), Write(inserts[i].key, inserts[i].value), old(missing), trie, missing)
    {
      hide Good, Linked, Overlay, Trie.AsMap, Trie.Valid, Trie.InsertValue, Attempted;
      ghost var s := Now();
      InsertReady(codec, base, s, i);
      WriteAttempted(trie, inserts[i].key, inserts[i].value, missing);
      var outcome := WriteNew(inserts[i].key, inserts[i].value);
      match outcome {
        case InsertNotFound(path) =>
          missing := missing + [path];
        case InsertOk(replaced) =>
          InsertKeeps(codec, base, s, i, trie, replaced);
          MarkInserted(i, replaced);
      }
    }

    method MarkInserted(i: nat, replaced: Option<nat>)
      requires i < |inserts| && i < |insertsOk|
      modifies this`current, this`insertsOk, this`patch, this`effects
      ensures Now() == InsertDone(old(Now()), i, trie, replaced)
    {
      var ins := inserts[i];
      insertsOk := insertsOk[i := true];
      current := current[ins.owner := AppliedOp(Some(ins.content), ins.key, replaced)];
      patch, effects := patch[ins.owner := Some(ins.content)], effects + [Inserted(i)];
    }

    /** Carries out deletion `i`, unless nodes are missing or the key is. */
    method DeleteOne(i: nat) returns (found: bool)
      requires Inv() && previous == map[] && AllSet(revertsDone)
      requires i < |deletes| && i < |deletesOk| && !deletesOk[i]
      modifies this`hashed, this`trie, this`current, this`deletesOk, this`missing, this`patch, this`effects
      ensures Inv()
      ensures !found ==> RemovesAbsent(codec, base, wanted) && missing == old(missing) && effects == old(effects)
      ensures found ==>
                if missing == old(missing)
                then deletesOk == old(deletesOk)[i := true] && effects == old(effects) + [Deleted(i)]
                else |missing| > |old(missing)| && deletesOk == old(deletesOk) && effects == old(effects)
      ensures Attempted(old(trie), Remove(deletes[i].key), old(missing), trie, missing)
    {
      hide Good, Linked, Overlay, Trie.AsMap, Trie.Valid, Trie.DeleteKey, Attempted;
      ghost var s := Now();
      DeleteReady(codec, base, s, i);
      RemoveAttempted(trie, deletes[i].key, missing);
      found := true;
      var outcome := Delete(deletes[i].key);
      match outcome {
        case DeleteNotFound(path) =>
          missing := missing + [path];
        case KeyNotFound =>
          found := false;
        case DeleteOk(removed) =>
          DeleteKeeps(codec, base, s, i, trie, removed);
          MarkDeleted(i, removed);
      }
    }

    method MarkDeleted(i: nat, removed: nat)
      requires i < |deletes| && i < |deletesOk|
      modifies this`current, this`deletesOk, this`patch, this`effects
      ensures Now() == DeleteDone(old(Now()), i, trie, removed)
    {
      var del := deletes[i];
      deletesOk := deletesOk[i := true];
      current := current[del.owner := AppliedOp(None, del.key, Some(removed))];
      patch, effects := patch[del.owner := None], effects + [Deleted(i)];
    }

    /** Carries out what is staged, as far as nodes are loaded: true when nothing is missing. */
    method Process(needRoot: bool) returns (r: Result<bool, string>)
      requires Inv() && previous == map[]
      modifies this`hashed, this`trie, this`current, this`revertsDone, this`insertsOk, this`deletesOk,
               this`missing, this`patch, this`effects
      ensures Inv() && old(effects) <= effects
      ensures old(Loaded(trie.root)) ==> Loaded(trie.root) && (r.Ok? ==> r.value)
      ensures r.Err? ==> RemovesAbsent(codec, base, wanted)
      ensures r.Ok? ==> (r.value <==> missing == [])
      ensures r.Ok? && r.value ==> AllDone(Now()) && (needRoot ==> !trie.IsUninit())
      ensures r.Ok? ==> Tried(old(Now()), Now(), missing, needRoot)
    {
      hide Good, Loaded, Linked, RemovesAbsent, AllSet, AllDone, AllAttempted, Tried, RevertOps, ChangeOps, Flagged;
      missing := [];
      ghost var s := Now();
      RevertAll();
      ghost var u := Now();
      // reverts always come first
      if missing != [] {
        TriedReverts(s, u, missing, needRoot);
        return Ok(false);
      }
      ghost var m;
      r, m := ApplyChanges(needRoot);
      if r.Ok? {
        TriedChanges(s, u, Now(), m, missing, needRoot);
      }
    }

    /** Carries out the insertions and deletions, and sees to the root. */
    method ApplyChanges(needRoot: bool) returns (r: Result<bool, string>, ghost m: seq<Nibbles>)
      requires Inv() && previous == map[] && AllSet(revertsDone) && missing == []
      modifies this`hashed, this`trie, this`current, this`insertsOk, this`deletesOk,
               this`missing, this`patch, this`effects
      ensures Inv() && old(effects) <= effects && Flagged(Now()) && Flagged(old(Now()))
      ensures old(Loaded(trie.root)) ==> Loaded(trie.root) && (r.Ok? ==> r.value)
      ensures r.Err? ==> RemovesAbsent(codec, base, wanted)
      ensures r.Ok? ==> (r.value <==> missing == [])
      ensures r.Ok? && r.value ==> AllDone(Now()) && (needRoot ==> !trie.IsUninit())
      ensures r.Ok? ==> AllAttempted(old(trie), ChangeOps(old(Now())), [], trie, m, ChangeOps(Now()))
      ensures r.Ok? ==> missing == if needRoot && trie.IsUninit() then m + [[]] else m
    {
      hide Good, Loaded, Linked, RemovesAbsent, AllSet, AllDone, AllAttempted, ChangeOps, Flagged;
      var found := ApplyAll();
      m := missing;
      if !found {
        return Err("deleting a key that is not in the trie"), m;
      }
      UninitAlike();
      LoadedIsInit(trie);
      if needRoot && hashed.IsUninit() {
        missing := missing + [[]];
      }
      return Ok(missing == []), m;
    }

    lemma UninitAlike()
      requires Linked()
      ensures hashed.IsUninit() <==> trie.IsUninit()
    {
    }

    /** Carries out the insertions and deletions, once every revert is done. */
    method ApplyAll() returns (found: bool)
      requires Inv() && previous == map[] && AllSet(revertsDone) && missing == []
      modifies this`hashed, this`trie, this`current, this`insertsOk, this`deletesOk,
               this`missing, this`patch, this`effects
      ensures Inv() && old(effects) <= effects && Flagged(Now()) && Flagged(old(Now()))
      ensures old(Loaded(trie.root)) ==> Loaded(trie.root) && missing == []
      ensures !found ==> RemovesAbsent(codec, base, wanted)
      ensures found && missing == [] ==> AllDone(Now())
      ensures found ==> AllAttempted(old(trie), ChangeOps(old(Now())), [], trie, missing, ChangeOps(Now()))
    {
      hide Good, Loaded, Linked, RemovesAbsent, AllSet, AllAttempted, PendingInserts, PendingDeletes;
      FlagCounts(codec, base, Now());
      InsertAll();
      ghost var t, m := trie, missing;
      found := DeleteAll();
      if found {
        DeletesRestoreNothing(deletes, old(deletesOk));
        ThenAttempted(old(trie), PendingInserts(inserts, old(insertsOk)), [], t, m, PendingInserts(inserts, insertsOk),
                      PendingDeletes(deletes, old(deletesOk)), trie, missing, PendingDeletes(deletes, deletesOk));
      }
    }

    method RevertAll()
      requires Inv() && previous == map[] && missing == []
      modifies this`hashed, this`trie, this`revertsDone, this`missing, this`patch, this`effects
      ensures old(Loaded(trie.root)) ==> Loaded(trie.root) && missing == old(missing)
      ensures Inv() && old(effects) <= effects && Flagged(old(Now())) && Flagged(Now())
      ensures missing == [] ==> AllSet(revertsDone)
      ensures AllAttempted(old(trie), RevertOps(old(Now())), [], trie, missing, RevertOps(Now()))
      ensures ChangeOps(Now()) == ChangeOps(old(Now()))
    {
      hide Good, Loaded, AllSet, Linked, AllAttempted, Attempted, RevertOp, PendingReverts, PendingInserts;
      hide PendingDeletes, Fits;
      FlagCounts(codec, base, Now());
      RevertsFit(codec, base, Now());
      RevertsStart(trie, reverts, revertsDone);
      ghost var was := revertsDone;
      NoneToSet(revertsDone);
      for i := 0 to |reverts|
        invariant old(Loaded(trie.root)) ==> Loaded(trie.root) && missing == old(missing)
        invariant Inv() && old(effects) <= effects && |revertsDone| == |reverts|
        invariant missing == [] ==> AllSet(revertsDone[..i])
        invariant revertsDone[i..] == was[i..]
        invariant AllAttempted(old(trie), PendingReverts(reverts[..i], was[..i]), [], trie, missing,
                               PendingReverts(reverts[..i], revertsDone[..i]))
      {
        ghost var t, m, flags := trie, missing, revertsDone;
        if !revertsDone[i] {
          RevertOne(i);
          AttemptedLoaded(t, RevertOp(reverts[i]), m, trie, missing);
        }
        if missing == [] {
          MoreSet(flags, revertsDone, i);
        }
        RevertsStep(old(trie), reverts, was, i, t, m, flags, trie, missing, revertsDone);
      }
      assert revertsDone[..|reverts|] == revertsDone && was[..|reverts|] == was && reverts[..|reverts|] == reverts;
    }

    method InsertAll()
      requires Inv() && previous == map[] && AllSet(revertsDone)
      modifies this`hashed, this`trie, this`current, this`insertsOk, this`missing, this`patch, this`effects
      ensures old(Loaded(trie.root)) ==> Loaded(trie.root) && missing == old(missing)
      ensures Inv() && old(effects) <= effects && |old(missing)| <= |missing|
      ensures |inserts| == |insertsOk| == |old(insertsOk)|
      ensures missing == [] ==> AllSet(insertsOk)
      ensures AllAttempted(old(trie), PendingInserts(inserts, old(insertsOk)), old(missing), trie, missing,
                           PendingInserts(inserts, insertsOk))
    {
      hide Good, Loaded, AllSet, Linked, AllAttempted, Attempted, PendingInserts, Fits;
      FlagCounts(codec, base, Now());
      InsertsFit(codec, base, Now());
      InsertsStart(trie, missing, inserts, insertsOk);
      ghost var was := insertsOk;
      NoneToSet(insertsOk);
      for i := 0 to |inserts|
        invariant old(Loaded(trie.root)) ==> Loaded(trie.root) && missing == old(missing)
        invariant Inv() && old(effects) <= effects && |old(missing)| <= |missing| && |insertsOk| == |inserts|
        invariant missing == [] ==> AllSet(insertsOk[..i])
        invariant insertsOk[i..] == was[i..]
        invariant AllAttempted(old(trie), PendingInserts(inserts[..i], was[..i]), old(missing), trie, missing,
                               PendingInserts(inserts[..i], insertsOk[..i]))
      {
        ghost var t, m, flags := trie, missing, insertsOk;
        if !insertsOk[i] {
          InsertOne(i);
          AttemptedLoaded(t, Write(inserts[i].key, inserts[i].value), m, trie, missing);
        }
        if missing == [] {
          MoreSet(flags, insertsOk, i);
        }
        InsertsStep(old(trie), old(missing), inserts, was, i, t, m, flags, trie, missing, insertsOk);
      }
      assert insertsOk[..|inserts|] == insertsOk && was[..|inserts|] == was && inserts[..|inserts|] == inserts;
    }

    method DeleteAll() returns (found: bool)
      requires Inv() && previous == map[] && AllSet(revertsDone)
      modifies this`hashed, this`trie, this`current, this`deletesOk, this`missing, this`patch, this`effects
      ensures old(Loaded(trie.root)) ==> Loaded(trie.root) && missing == old(missing)
      ensures Inv() && old(effects) <= effects && |old(missing)| <= |missing|
      ensures |deletes| == |deletesOk| == |old(deletesOk)|
      ensures !found ==> RemovesAbsent(codec, base, wanted)
      ensures found && missing == [] ==> AllSet(deletesOk)
      ensures found ==> AllAttempted(old(trie), PendingDeletes(deletes, old(deletesOk)), old(missing), trie, missing,
                                     PendingDeletes(deletes, deletesOk))
    {
      hide Good, Loaded, AllSet, Linked, AllAttempted, Attempted, PendingDeletes, Fits;
      FlagCounts(codec, base, Now());
      DeletesFit(codec, base, Now());
      DeletesStart(trie, missing, deletes, deletesOk);
      ghost var was := deletesOk;
      NoneToSet(deletesOk);
      for i := 0 to |deletes|
        invariant old(Loaded(trie.root)) ==> Loaded(trie.root) && missing == old(missing)
        invariant Inv() && old(effects) <= effects && |old(missing)| <= |missing| && |deletesOk| == |deletes|
        invariant missing == [] ==> AllSet(deletesOk[..i])
        invariant deletesOk[i..] == was[i..]
        invariant AllAttempted(old(trie), PendingDeletes(deletes[..i], was[..i]), old(missing), trie, missing,
                               PendingDeletes(deletes[..i], deletesOk[..i]))
      {
        ghost var t, m, flags := trie, missing, deletesOk;
        if !deletesOk[i] {
          found := DeleteOne(i);
          AttemptedLoaded(t, Remove(deletes[i].key), m, trie, missing);
          if !found {
            FlagCounts(codec, base, Now());
            return;
          }
        }
        if missing == [] {
          MoreSet(flags, deletesOk, i);
        }
        DeletesStep(old(trie), old(missing), deletes, was, i, t, m, flags, trie, missing, deletesOk);
      }
      assert deletesOk[..|deletes|] == deletesOk && was[..|deletes|] == was && deletes[..|deletes|] == deletes;
      found := true;
    }
  }
}
