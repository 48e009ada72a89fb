/**
  The incremental state-root calculator: one storage trie per account and one account trie,
  kept alive over many calculations on the same parent block.
 */
module RootHash {
  import opened Wrappers
  import opened SparseTrie
  import opened LoadingRounds
  import opened PatchedTries
  import TrieRoots

  type Address = n: nat | n < 0x1_0000000000_0000000000_0000000000_0000000000
  type Slot = n: nat | n < 0x1_0000000000000000_0000000000000000_0000000000000000_0000000000000000
  type Word = n: nat | n < 0x1_0000000000000000_0000000000000000_0000000000000000_0000000000000000
  type Hash = Bytes

  datatype AccountInfo = AccountInfo(nonce: nat, balance: nat, codeHash: Hash)

  datatype SlotChange = SlotChange(original: Word, present: Word) {
    predicate IsChanged() {
      original != present
    }
  }

  datatype BundleAccount = BundleAccount(modified: bool, info: Option<AccountInfo>, storage: map<Slot, SlotChange>)

  /** The outcome of executing a block: every account it touched. */
  type Outcome = map<Address, BundleAccount>

  datatype TrieAccount = TrieAccount(nonce: nat, balance: nat, storageRoot: Hash, codeHash: Hash)

  /** The hash that stands for "no hash". */
  function ZeroHash(): Hash {
    seq(32, i => 0)
  }

  /** The parent block: its account trie and storage tries, and the hashing of keys, values and nodes. */
  datatype Parent = Parent(
    hashing: Hashing,
    slots: Codec<Slot, Word>,
    accounts: Codec<Address, TrieAccount>,
    storageTrie: Address -> Full,
    accountTrie: Full)
  {
    ghost predicate Valid() {
      && Lawful(slots) && Lawful(accounts)
      && Canonical(accountTrie, KEY_NIBBLES)
      && forall a :: Canonical(storageTrie(a), KEY_NIBBLES)
    }

    /** The slots of an account are among those in use. */
    ghost predicate CoversSlots(account: BundleAccount) {
      forall k :: k in account.storage ==> slots.inUse(k)
    }

    /** The accounts and slots of an outcome are among those in use. */
    ghost predicate Covers(outcome: Outcome) {
      forall a :: a in outcome ==> accounts.inUse(a) && CoversSlots(outcome[a])
    }
  }

  // ---------------------------------------------------------------------------
  // What the calculator is for

  /** The slots an outcome changes; a slot changed to zero is removed from its trie. */
  function Wants(storage: map<Slot, SlotChange>): map<Slot, Option<Word>> {
    map k | k in storage && storage[k].IsChanged() ::
      if storage[k].present == 0 then None else Some(storage[k].present)
  }

  /** What an outcome makes of an account. */
  datatype Change = Change(info: Option<AccountInfo>, slots: map<Slot, Option<Word>>)

  function ChangeOf(account: BundleAccount): Change {
    Change(account.info, Wants(account.storage))
  }

  /** The changes of an outcome: its modified accounts. */
  function Changes(outcome: Outcome): map<Address, Change> {
    map a | a in outcome && outcome[a].modified :: ChangeOf(outcome[a])
  }

  /** The root of an account's parent storage overlaid with the changed slots. */
  ghost function StorageRoot(p: Parent, a: Address, slots: map<Slot, Option<Word>>): Hash {
    RootOf(p.hashing, Overlay(p.slots, Contents(p.storageTrie(a), KEY_NIBBLES), slots))
  }

  ghost function Account(p: Parent, a: Address, change: Change): Option<TrieAccount> {
    match change.info
    case None => None
    case Some(info) => Some(TrieAccount(info.nonce, info.balance, StorageRoot(p, a, change.slots), info.codeHash))
  }

  ghost function Accounts(p: Parent, changes: map<Address, Change>): map<Address, Option<TrieAccount>> {
    map a | a in changes :: Account(p, a, changes[a])
  }

  /** The account trie with the changed accounts on top, each carrying its new storage root. */
  ghost function NewState(p: Parent, changes: map<Address, Change>): Map {
    Overlay(p.accounts, Contents(p.accountTrie, KEY_NIBBLES), Accounts(p, changes))
  }

  ghost function StateRoot(p: Parent, changes: map<Address, Change>): Hash {
    RootOf(p.hashing, NewState(p, changes))
  }

  // What an outcome leads to, slot by slot and account by account

  /** A map of storage values is the parent storage of `a` with the slots of an account of an outcome written over it:
      the present value where it changed, nothing where it changed to zero, and the parent's value everywhere else. */
  ghost predicate IsStorageAfter(p: Parent, a: Address, account: BundleAccount, m: Map) {
    var was := Contents(p.storageTrie(a), KEY_NIBBLES);
    && (forall k :: k in account.storage ==>
          var x, slot := p.slots.keyOf(k), account.storage[k];
          if slot.original == slot.present then At(m, x) == At(was, x)
          else if slot.present == 0 then x !in m
          else x in m && m[x] == p.slots.encode(slot.present))
    && (forall x: Nibbles :: (forall k :: k in account.storage ==> p.slots.keyOf(k) != x) ==> At(m, x) == At(was, x))
  }

  /** What an account of an outcome is in the account trie: nothing without info, and otherwise its nonce, balance and
      code hash with the root of its storage. */
  ghost predicate IsAccountAfter(p: Parent, a: Address, account: BundleAccount, value: Option<Bytes>) {
    match account.info
    case None => value == None
    case Some(info) =>
      exists m: Map ::
        && IsStorageAfter(p, a, account, m)
        && value == Some(p.accounts.encode(
             TrieAccount(info.nonce, info.balance, TrieRoots.Root(p.hashing, m), info.codeHash)))
  }

  /** The account trie `m` is `was` with the accounts of an outcome at `targets` written over it. */
  ghost predicate IsStateAfter(p: Parent, outcome: Outcome, targets: set<Address>, was: Map, m: Map) {
    && (forall a :: a in targets ==> a in outcome && IsAccountAfter(p, a, outcome[a], At(m, p.accounts.keyOf(a))))
    && (forall x: Nibbles :: (forall a :: a in targets ==> p.accounts.keyOf(a) != x) ==> At(m, x) == At(was, x))
  }

  /** The root of the parent state with all modified accounts of an outcome written over it. */
  ghost predicate IsRootAfter(p: Parent, outcome: Outcome, root: Hash) {
    exists m: Map ::
      && IsStateAfter(p, outcome, (set a | a in outcome && outcome[a].modified),
                      Contents(p.accountTrie, KEY_NIBBLES), m)
      && root == TrieRoots.Root(p.hashing, m)
  }

  lemma StorageIsAfter(p: Parent, a: Address, account: BundleAccount)
    requires p.Valid() && p.CoversSlots(account)
    ensures IsStorageAfter(p, a, account,
                           Overlay(p.slots, Contents(p.storageTrie(a), KEY_NIBBLES), Wants(account.storage)))
  {
    hide Contents, Overlay, OverlayAt;
    var was, wants := Contents(p.storageTrie(a), KEY_NIBBLES), Wants(account.storage);
    WantsInUse(p.slots, account.storage);
    forall k | k in account.storage
      ensures At(Overlay(p.slots, was, wants), p.slots.keyOf(k)) ==
                if k !in wants then At(was, p.slots.keyOf(k))
                else if wants[k].Some? then Some(p.slots.encode(wants[k].value)) else None
    {
      AtOverlay(p.slots, was, wants, p.slots.keyOf(k));
      OverlayOwned(p.slots, was, wants, k);
    }
    forall x: Nibbles | forall k :: k in account.storage ==> p.slots.keyOf(k) != x
      ensures At(Overlay(p.slots, was, wants), x) == At(was, x)
    {
      AtOverlay(p.slots, was, wants, x);
      OverlayElse(p.slots, was, wants, x);
    }
  }

  lemma OverlayElse<K, V>(c: Codec<K, V>, base: Map, patch: map<K, Option<V>>, x: Nibbles)
    requires forall k :: k in patch ==> c.keyOf(k) != x
    ensures OverlayAt(c, base, patch, x) == At(base, x)
  {
  }

  lemma AccountIsAfter(p: Parent, a: Address, account: BundleAccount)
    requires p.Valid() && p.CoversSlots(account)
    ensures var t := Account(p, a, ChangeOf(account));
            IsAccountAfter(p, a, account, if t.Some? then Some(p.accounts.encode(t.value)) else None)
  {
    hide RootOf, Overlay, Contents, IsStorageAfter, Wants, TrieRoots.Root;
    StorageIsAfter(p, a, account);
    WantsInUse(p.slots, account.storage);
    OverlayRoot(p.slots, p.hashing, p.storageTrie(a), Wants(account.storage));
  }

  ghost function ChangesAt(outcome: Outcome, targets: set<Address>): map<Address, Change>
    requires targets <= outcome.Keys
  {
    map a | a in targets :: ChangeOf(outcome[a])
  }

  /** Going from the changes `before` to those with the plan of an outcome on top changes the accounts of the plan only,
      to what the outcome makes of them. */
  lemma MergedIsAfter(p: Parent, outcome: Outcome, targets: set<Address>, before: map<Address, Change>)
    requires p.Valid() && p.Covers(outcome) && targets <= outcome.Keys
    requires forall a :: a in before ==> p.accounts.inUse(a)
    ensures IsStateAfter(p, outcome, targets, NewState(p, before), NewState(p, before + ChangesAt(outcome, targets)))
  {
    hide Contents, Overlay, OverlayAt, Account, IsAccountAfter, ChangeOf, Lawful, RootOf;
    var plan := ChangesAt(outcome, targets);
    var base, was, now := Contents(p.accountTrie, KEY_NIBBLES), Accounts(p, before), Accounts(p, before + plan);
    assert InUse(p.accounts, was) && InUse(p.accounts, now);
    forall a | a in targets
      ensures IsAccountAfter(p, a, outcome[a], At(NewState(p, before + plan), p.accounts.keyOf(a)))
    {
      AtOverlay(p.accounts, base, now, p.accounts.keyOf(a));
      OverlayOwned(p.accounts, base, now, a);
      AccountIsAfter(p, a, outcome[a]);
    }
    forall x: Nibbles | forall a :: a in targets ==> p.accounts.keyOf(a) != x
      ensures At(NewState(p, before + plan), x) == At(NewState(p, before), x)
    {
      AtOverlay(p.accounts, base, was, x);
      AtOverlay(p.accounts, base, now, x);
      SameElsewhere(p.accounts, base, was, now, x);
    }
  }

  /** Patches that agree on the owners of a path overlay the same way there. */
  lemma SameElsewhere<K(!new), V>(c: Codec<K, V>, base: Map, p: map<K, Option<V>>, q: map<K, Option<V>>, x: Nibbles)
    requires Lawful(c) && InUse(c, p) && InUse(c, q)
    requires forall k :: c.keyOf(k) == x ==> (k in p <==> k in q) && (k in p && k in q ==> p[k] == q[k])
    ensures OverlayAt(c, base, p, x) == OverlayAt(c, base, q, x)
  {
    if Owned(c, p, x) {
      var k := Owner(c, p, x);
      assert Owned(c, q, x);
    }
    if Owned(c, q, x) {
      var k := Owner(c, q, x);
      assert Owned(c, p, x);
    }
  }

  /** Some storage root is the hash that stands for "no hash". */
  ghost predicate HasZeroRoot(p: Parent, changes: map<Address, Change>) {
    exists a :: a in changes && changes[a].info.Some? && IsZero(StorageRoot(p, a, changes[a].slots))
  }

  ghost predicate IsZero(hash: Hash) {
    |hash| == 32 && forall i :: 0 <= i < |hash| ==> hash[i] == 0
  }

  /** The addresses whose accounts a calculation looks at: the modified ones, or in incremental mode the given ones. */
  function Targets(outcome: Outcome, incremental: set<Address>): set<Address> {
    if incremental == {} then (set a | a in outcome && outcome[a].modified) else incremental
  }

  /** The changes that a calculation makes. */
  ghost function Plan(outcome: Outcome, incremental: set<Address>): map<Address, Change>
    requires incremental <= outcome.Keys
  {
    ChangesAt(outcome, Targets(outcome, incremental))
  }

  /** In incremental mode the accounts outside the set stay as they are. */
  function KeepOthers(incremental: set<Address>): Address -> bool {
    (a: Address) => incremental != {} && a !in incremental
  }

  /** The changed slots are wanted, with their present value, or without one when that is zero; no other is. */
  ghost predicate IsWanted(storage: map<Slot, SlotChange>, wanted: map<Slot, Option<Word>>) {
    && (forall k :: k in wanted <==> k in storage && storage[k].original != storage[k].present)
    && (forall k :: k in wanted ==>
          wanted[k] == if storage[k].present == 0 then None else Some(storage[k].present))
  }

  lemma WantsAreWanted(storage: map<Slot, SlotChange>)
    ensures IsWanted(storage, Wants(storage))
  {
  }

  lemma WantsInUse(c: Codec<Slot, Word>, storage: map<Slot, SlotChange>)
    requires forall k :: k in storage ==> c.inUse(k)
    ensures InUse(c, Wants(storage))
  {
  }

  // ---------------------------------------------------------------------------
  // One storage trie

  /** A calculation of a storage trie keeps nothing that it does not want. */
  function KeepNone(k: Slot): bool {
    false
  }

  datatype Status = InsertsNotProcessed | InsertsProcessed | Hashed

  class StorageCalculator {
    const address: Address
    const patched: PatchedTrie<Slot, Word>
    var info: Option<AccountInfo>
    var hash: Hash

    /** How many rounds of loading the staged changes need at most, when that is known. */
    ghost var rounds: Option<nat>

    constructor (parent: Parent, a: Address)
      requires parent.Valid()
      ensures IsFor(parent, a) && Sound() && fresh(patched)
      ensures patched.trie == Trie(Remote(parent.storageTrie(a)), []) && patched.previous == map[]
    {
      address := a;
      patched := new PatchedTrie(parent.slots, parent.hashing, parent.storageTrie(a), Some(a));
      info := None;
      hash := ZeroHash();
      rounds := None;
    }

    ghost predicate IsFor(parent: Parent, a: Address) {
      && address == a && patched.account == Some(a)
      && patched.hashing == parent.hashing && patched.codec == parent.slots
      && patched.base == Contents(parent.storageTrie(a), KEY_NIBBLES)
    }

    /** A hash, when there is one, is the root of what the trie holds. */
    ghost predicate HashSound()
      reads this, patched
    {
      patched.trie.Valid() && (hash != ZeroHash() ==> hash == RootOf(patched.hashing, patched.trie.AsMap()))
    }

    /** The invariant between calculations. */
    ghost predicate Sound()
      reads this, patched
    {
      patched.Synced() && HashSound()
    }

    /** When a number of rounds is given, it suffices. */
    ghost predicate Funded()
      reads this`rounds, patched
    {
      rounds.Some? ==>
        && patched.trie.Valid() && !RemovesAbsent(patched.codec, patched.base, patched.wanted)
        && Payable(patched.Now().(trie := LoadAll(patched.trie, patched.missing)), true, rounds.value)
    }

    ghost predicate Ready(n: nat)
      reads this, patched
    {
      rounds == Some(n) && patched.missing == []
    }

    /** What the rounds of loading depend on. */
    ghost function View(): (Option<nat>, seq<Nibbles>, Trie, Log<Slot, Word>)
      reads this, patched
    {
      (rounds, patched.missing, patched.trie, patched.previous)
    }

    /** The state of an account's calculator during a calculation that wants `change`. */
    ghost predicate InProgress(status: Status, change: Change)
      reads this, patched
    {
      && info == change.info
      && match status
         case Hashed =>
           Sound() && (info.Some? ==>
                       patched.wanted == change.slots && hash == RootOf(patched.hashing, patched.trie.AsMap()))
         case InsertsNotProcessed =>
           info.Some? && patched.Inv() && patched.previous == map[] && patched.wanted == change.slots && Funded()
         case InsertsProcessed =>
           && info.Some? && patched.Inv() && patched.previous == map[] && patched.wanted == change.slots
           && AllDone(patched.Now()) && !patched.trie.IsUninit()
    }

    /** The rounds of a calculation suffice to go from the previous changes to `slots`. */
    ghost predicate CanChange(slots: map<Slot, Option<Word>>)
      reads patched
    {
      Feasible(patched.codec, patched.base, patched.trie, patched.previous, slots, KeepNone, true)
    }

    method Prepare(account: BundleAccount) returns (status: Status)
      requires Sound() && forall k :: k in account.storage ==> patched.codec.inUse(k)
      modifies this, patched
      ensures InProgress(status, ChangeOf(account))
      ensures info == account.info && (info.Some? ==> IsWanted(account.storage, patched.wanted))
      ensures status == InsertsNotProcessed ==> account.info.Some?
      ensures status == InsertsNotProcessed && old(CanChange(Wants(account.storage))) ==> Ready(ATTEMPTS - 1)
    {
      hide Good, Settled, RootOf, Trie.AsMap, Trie.Valid, Wants, Funded, CanChange, PatchedTrie.Linked;
      info := account.info;
      if info.None? {
        patched.Rest();
        hash := ZeroHash();
        return Hashed;
      }
      WantsInUse(patched.codec, account.storage);
      WantsAreWanted(account.storage);
      StageSlots(Wants(account.storage));
      if patched.deletes == [] && patched.inserts == [] && patched.reverts == []
         && hash != ZeroHash() && !patched.hashed.IsUninit() {
        FlagCounts(patched.codec, patched.base, patched.Now());
        patched.Commit();
        return Hashed;
      }
      hash := ZeroHash();
      return InsertsNotProcessed;
    }

    /** Stages the wanted slots and the revert of every slot that is not wanted any more. */
    method StageSlots(wants: map<Slot, Option<Word>>)
      requires patched.Synced() && InUse(patched.codec, wants)
      modifies patched, this`rounds
      ensures patched.Inv() && patched.previous == map[] && patched.wanted == wants && patched.trie == old(patched.trie)
      ensures Funded() && patched.missing == [] && (old(CanChange(wants)) ==> rounds == Some(ATTEMPTS - 1))
    {
      hide Good, Settled, Trie.Valid, Feasible, Payable, NothingNew, Idle, RemovesAbsent, PatchedTrie.Linked;
      rounds := if CanChange(wants) then Some(ATTEMPTS - 1) else None;
      patched.StageChanges(wants, KeepNone, true);
      NothingToLoad();
    }

    /** True when every change of this storage trie is applied. */
    method Process(ghost change: Change) returns (r: Result<bool, string>)
      requires InProgress(InsertsNotProcessed, change)
      modifies patched, this`rounds
      ensures r.Ok? ==> InProgress(if r.value then InsertsProcessed else InsertsNotProcessed, change)
      ensures old(rounds.Some? && patched.missing == []) ==>
                r.Ok? && (r.value || (old(rounds).value > 0 && rounds == Some(old(rounds).value - 1)))
    {
      hide Good, AllDone, Tried, Payable, RemovesAbsent, Trie.Valid, LoadAll, PatchedTrie.Linked;
      ghost var s, funded := patched.Now(), rounds.Some? && patched.missing == [];
      NothingToLoad();
      r := patched.Process(true);
      if r.Ok? && !r.value && funded {
        TrieIsValid(patched.codec, patched.base, patched.Now());
        RoundPaid(patched.codec, patched.base, s, patched.Now(), patched.missing, true, rounds.value);
      }
      rounds := if r.Ok? && !r.value && funded then Some(rounds.value - 1) else None;
    }

    lemma NothingToLoad()
      requires patched.Inv()
      ensures patched.trie.Valid() && (patched.missing == [] ==> LoadAll(patched.trie, patched.missing) == patched.trie)
    {
    }

    method LoadMissing(ghost change: Change)
      requires InProgress(InsertsNotProcessed, change)
      modifies patched
      ensures InProgress(InsertsNotProcessed, change) && patched.missing == []
    {
      hide Good, Payable, RemovesAbsent, Trie.Valid, LoadAll, PatchedTrie.Linked, Walked;
      patched.LoadMissing();
      NothingToLoad();
    }

    /** The hash of a finished calculation is the root of the parent's storage with the changed slots on top. */
    lemma HashedIsRoot(change: Change)
      requires InProgress(Hashed, change)
      ensures Sound() && info == change.info
      ensures info.Some? ==> hash == RootOf(patched.hashing, Overlay(patched.codec, patched.base, change.slots))
    {
      hide RootOf, Overlay, Trie.Valid, Trie.AsMap;
    }

    method HashTrie(ghost change: Change)
      requires InProgress(InsertsProcessed, change)
      modifies this, patched
      ensures InProgress(Hashed, change)
    {
      hide Good, Settled, RootOf;
      TrieIsValid(patched.codec, patched.base, patched.Now());
      RootHashIsRootOf(patched.hashing, patched.trie);
      hash := patched.RootHash();
      patched.Commit();
    }
  }

  // ---------------------------------------------------------------------------
  // The calculator

  class RootHashCalculator {
    const parent: Parent
    var storage: map<Address, StorageCalculator>
    var changed: map<Address, Status>
    const accountTrie: PatchedTrie<Address, TrieAccount>
    var incremental: set<Address>

    /** The changes that the account trie carries after the last calculation. */
    ghost var effective: map<Address, Change>

    ghost var Repr: set<object>

    constructor (parent: Parent)
      requires parent.Valid()
      ensures this.parent == parent && Valid() && effective == map[] && fresh(Repr)
      ensures storage == map[] && incremental == {}
      ensures accountTrie.trie == Trie(Remote(parent.accountTrie), []) && accountTrie.previous == map[]
    {
      this.parent := parent;
      storage, changed, incremental := map[], map[], {};
      accountTrie := new PatchedTrie(parent.accounts, parent.hashing, parent.accountTrie, None);
      effective := map[];
      Repr := {this, accountTrie};
    }

    /** No two tries share an object. */
    ghost predicate Shape()
      reads this`storage, this`Repr
    {
      && parent.Valid() && this in Repr && accountTrie in Repr
      && accountTrie.account == None && accountTrie.hashing == parent.hashing
      && accountTrie.codec == parent.accounts && accountTrie.base == Contents(parent.accountTrie, KEY_NIBBLES)
      && (forall a :: a in storage ==>
            && storage[a] in Repr && storage[a].patched in Repr
            && storage[a].IsFor(parent, a))
    }

    /** The log of the account trie has the effective changes. */
    ghost predicate AccountsSynced()
      reads this`effective, accountTrie
    {
      accountTrie.Synced() && accountTrie.wanted == Accounts(parent, effective)
    }

    /** The account trie is the parent's with the changed accounts on top. */
    ghost predicate Holds(changes: map<Address, Change>)
      reads accountTrie
    {
      accountTrie.trie.Valid() && accountTrie.trie.AsMap() == NewState(parent, changes)
    }

    /** The invariant between calculations. */
    ghost predicate Valid()
      reads this, Repr
    {
      && Shape() && AccountsSynced()
      && forall a :: a in storage ==> storage[a].Sound()
    }

    /** The storage tries during a calculation that makes the changes `plan`. */
    ghost predicate InProgress(plan: map<Address, Change>)
      reads this, Repr
    {
      && Shape() && AccountsSynced()
      && changed.Keys <= plan.Keys && changed.Keys <= storage.Keys
      && (forall a :: a in changed ==> storage[a].InProgress(changed[a], plan[a]))
      && (forall a :: a in storage && a !in changed ==> storage[a].Sound())
    }

    /** The storage trie of an account, and the changes it carries. */
    ghost function StorageOf(a: Address): (Trie, Log<Slot, Word>)
      reads this, Repr
    {
      if a in storage && storage[a] in Repr && storage[a].patched in Repr
      then (storage[a].View().2, storage[a].View().3)
      else (Trie(Remote(parent.storageTrie(a)), []), map[])
    }

    /** The rounds of a calculation suffice to make the change to the storage of `a`. */
    ghost predicate CanChange(a: Address, change: Change)
      reads this, Repr
    {
      change.info.Some? ==>
        Feasible(parent.slots, Contents(parent.storageTrie(a), KEY_NIBBLES), StorageOf(a).0, StorageOf(a).1,
                 change.slots, KeepNone, true)
    }

    /** The storage tries that are not done need at most `n` rounds each. */
    ghost predicate Funded(n: nat)
      reads this, Repr
    {
      forall a :: a in changed && a in storage && storage[a] in Repr && storage[a].patched in Repr ==>
        changed[a] == InsertsNotProcessed ==> storage[a].Ready(n)
    }

    /** In the middle of a round: the storage tries that are not done need `n` rounds, or one less when they had their
        turn. */
    ghost predicate Owing(n: nat, todo: set<Address>)
      reads this, Repr
    {
      forall a :: a in changed && a in storage && storage[a] in Repr && storage[a].patched in Repr ==>
        changed[a] == InsertsNotProcessed ==>
          if a in todo then storage[a].Ready(n) else n > 0 && storage[a].rounds == Some(n - 1)
    }

    lemma AllOwing(plan: map<Address, Change>, n: nat)
      requires InProgress(plan)
      ensures Funded(n) <==> Owing(n, changed.Keys)
    {
    }

    /** An account that is done owes nothing. */
    lemma StillOwing(n: nat, todo: set<Address>, a: Address)
      requires Owing(n, todo) && a in changed && changed[a] != InsertsNotProcessed
      ensures Owing(n, todo - {a})
    {
    }

    /** Makes sure that an account has a calculator. */
    method GetStorage(a: Address, ghost plan: map<Address, Change>)
      requires InProgress(plan)
      modifies this`storage, this`Repr
      ensures InProgress(plan) && fresh(Repr - old(Repr)) && a in storage && storage.Keys == old(storage).Keys + {a}
      ensures forall b :: StorageOf(b) == old(StorageOf(b))
      ensures Funded(ATTEMPTS - 1) <==> old(Funded(ATTEMPTS - 1))
    {
      hide InProgress, AllBut, StorageOf, Funded, StorageCalculator.Sound;
      if a !in storage {
        Focus(a, plan);
        NewStorage(a, plan);
        Settle(a, plan);
      }
    }

    /** With the storage trie of an account that is not under way in order, all are. */
    lemma Settle(a: Address, plan: map<Address, Change>)
      requires AllBut(a, plan) && a in storage && a !in changed && storage[a].Sound()
      ensures InProgress(plan)
    {
      hide Shape, AccountsSynced, StorageCalculator.Sound, StorageCalculator.InProgress;
    }

    method NewStorage(a: Address, ghost plan: map<Address, Change>)
      requires AllBut(a, plan) && a !in storage
      modifies this`storage, this`Repr
      ensures AllBut(a, plan) && fresh(Repr - old(Repr)) && a in storage && storage[a].Sound()
      ensures storage.Keys == old(storage).Keys + {a}
      ensures forall b :: StorageOf(b) == old(StorageOf(b))
      ensures Funded(ATTEMPTS - 1) <==> old(Funded(ATTEMPTS - 1))
    {
      hide AllBut, StorageOf, Funded, StorageCalculator.Sound, StorageCalculator.IsFor, Parent.Valid, Contents;
      AllButShape(a, plan);
      var c := new StorageCalculator(parent, a);
      AdoptFresh(a, c, plan);
    }

    lemma AllButShape(a: Address, plan: map<Address, Change>)
      requires AllBut(a, plan)
      ensures Shape() && changed.Keys <= storage.Keys
    {
      hide AccountsSynced, StorageCalculator.Sound, StorageCalculator.InProgress, Shape;
    }

    method AdoptFresh(a: Address, c: StorageCalculator, ghost plan: map<Address, Change>)
      requires AllBut(a, plan) && a !in storage && c.IsFor(parent, a) && c.Sound()
      requires c.patched.trie == Trie(Remote(parent.storageTrie(a)), []) && c.patched.previous == map[]
      modifies this`storage, this`Repr
      ensures AllBut(a, plan) && Repr == old(Repr) + {c, c.patched} && storage == old(storage)[a := c]
              && storage[a].Sound()
      ensures forall b :: StorageOf(b) == old(StorageOf(b))
      ensures Funded(ATTEMPTS - 1) <==> old(Funded(ATTEMPTS - 1))
    {
      hide AllBut, StorageCalculator.Sound, StorageCalculator.IsFor, Parent.Valid, Contents;
      AllButShape(a, plan);
      Adopt(a, c, plan);
    }

    method Adopt(a: Address, c: StorageCalculator, ghost plan: map<Address, Change>)
      requires AllBut(a, plan) && a !in storage && c.IsFor(parent, a) && c.Sound()
      modifies this`storage, this`Repr
      ensures AllBut(a, plan) && Repr == old(Repr) + {c, c.patched} && storage == old(storage)[a := c]
              && storage[a].Sound()
    {
      hide AccountsSynced, StorageCalculator.Sound, StorageCalculator.InProgress, StorageCalculator.IsFor;
      hide Contents, Parent.Valid;
      storage, Repr := storage[a := c], Repr + {c, c.patched};
    }

    /** Prepares one account. */
    method PrepareOne(a: Address, account: BundleAccount, ghost plan: map<Address, Change>)
      requires InProgress(plan) && a !in changed && a in plan && plan[a] == ChangeOf(account)
      requires parent.CoversSlots(account)
      modifies Repr
      ensures unchanged(accountTrie)
      ensures InProgress(plan) && fresh(Repr - old(Repr))
      ensures changed.Keys == old(changed).Keys + {a}
      ensures incremental == old(incremental) && effective == old(effective)
      ensures forall b :: b != a ==> StorageOf(b) == old(StorageOf(b))
      ensures old(Funded(ATTEMPTS - 1) && CanChange(a, plan[a])) ==> Funded(ATTEMPTS - 1)
    {
      hide ChangeOf, Feasible, Contents, InProgress, StorageOf, Funded;
      SelfInRepr(plan);
      GetStorage(a, plan);
      SelfInRepr(plan);
      PrepareFunded(a, account, plan);
    }

    lemma SelfInRepr(plan: map<Address, Change>)
      requires InProgress(plan)
      ensures this in Repr && accountTrie in Repr
      ensures forall a :: a in storage ==> storage[a] in Repr && storage[a].patched in Repr
    {
      hide AccountsSynced, StorageCalculator.Sound, StorageCalculator.InProgress;
    }

    /** The storage tries when all but that of `a` are where they should be. */
    ghost predicate AllBut(a: Address, plan: map<Address, Change>)
      reads this, Repr
    {
      && Shape() && AccountsSynced()
      && changed.Keys <= plan.Keys && changed.Keys <= storage.Keys
      && (forall b :: b in changed && b != a ==> storage[b].InProgress(changed[b], plan[b]))
      && (forall b :: b in storage && b !in changed && b != a ==> storage[b].Sound())
    }

    method PrepareExisting(a: Address, account: BundleAccount, ghost plan: map<Address, Change>)
      requires InProgress(plan) && a in storage && a !in changed && a in plan && plan[a] == ChangeOf(account)
      requires parent.CoversSlots(account)
      modifies this`changed, storage[a], storage[a].patched
      ensures unchanged(accountTrie)
      ensures InProgress(plan) && changed.Keys == old(changed).Keys + {a} && changed == old(changed)[a := changed[a]]
      ensures forall b :: b in storage && b != a ==> storage[b].View() == old(storage[b].View())
      ensures changed[a] == InsertsNotProcessed && old(CanChange(a, plan[a])) ==> storage[a].Ready(ATTEMPTS - 1)
    {
      hide InProgress, AllBut, StorageCalculator.Sound, StorageCalculator.InProgress, ChangeOf, Shape, CanChange;
      hide StorageCalculator.Ready, StorageCalculator.View;
      Focus(a, plan);
      var status := PrepareTrie(a, account, plan);
      SetStatus(a, status, plan);
    }

    method PrepareFunded(a: Address, account: BundleAccount, ghost plan: map<Address, Change>)
      requires InProgress(plan) && a in storage && a !in changed && a in plan && plan[a] == ChangeOf(account)
      requires parent.CoversSlots(account)
      modifies this`changed, storage[a], storage[a].patched
      ensures unchanged(accountTrie)
      ensures InProgress(plan) && changed.Keys == old(changed).Keys + {a}
      ensures forall b :: b != a ==> StorageOf(b) == old(StorageOf(b))
      ensures old(Funded(ATTEMPTS - 1) && CanChange(a, plan[a])) ==> Funded(ATTEMPTS - 1)
    {
      hide ChangeOf, CanChange, InProgress;
      PrepareExisting(a, account, plan);
    }

    method PrepareTrie(a: Address, account: BundleAccount, ghost plan: map<Address, Change>) returns (status: Status)
      requires AllBut(a, plan) && a in storage && storage[a].Sound() && parent.CoversSlots(account)
      modifies storage[a], storage[a].patched
      ensures unchanged(accountTrie)
      ensures AllBut(a, plan) && storage[a].InProgress(status, ChangeOf(account))
      ensures forall b :: b in storage && b != a ==> storage[b].View() == old(storage[b].View())
      ensures status == InsertsNotProcessed && old(CanChange(a, ChangeOf(account))) ==> storage[a].Ready(ATTEMPTS - 1)
    {
      hide StorageCalculator.Sound, StorageCalculator.InProgress, StorageCalculator.Ready, StorageCalculator.CanChange;
      hide Contents, Parent.Valid, Wants, AccountsSynced, CanChange;
      if CanChange(a, ChangeOf(account)) && account.info.Some? {
        CanChangeAt(a, ChangeOf(account));
      }
      status := storage[a].Prepare(account);
    }

    lemma CanChangeAt(a: Address, change: Change)
      requires Shape() && a in storage && change.info.Some? && CanChange(a, change)
      ensures storage[a].CanChange(change.slots)
    {
      hide Feasible, Contents, Parent.Valid;
    }

    lemma Focus(a: Address, plan: map<Address, Change>)
      requires InProgress(plan)
      ensures AllBut(a, plan)
      ensures a in changed ==> a in storage && a in plan && storage[a].InProgress(changed[a], plan[a])
      ensures a in storage && a !in changed ==> storage[a].Sound()
    {
      hide Shape, AccountsSynced, StorageCalculator.Sound, StorageCalculator.InProgress;
    }

    method SetStatus(a: Address, status: Status, ghost plan: map<Address, Change>)
      requires AllBut(a, plan) && a in storage && a in plan && storage[a].InProgress(status, plan[a])
      modifies this`changed
      ensures InProgress(plan) && changed == old(changed)[a := status]
    {
      hide AccountsSynced, Shape, StorageCalculator.Sound, StorageCalculator.InProgress;
      changed := changed[a := status];
    }

    /** Prepares the storage tries of all targets, in any order. */
    method PrepareAll(outcome: Outcome, targets: set<Address>, ghost plan: map<Address, Change>)
      requires InProgress(plan) && changed == map[] && targets <= outcome.Keys && parent.Covers(outcome)
      requires plan == map a | a in targets :: ChangeOf(outcome[a])
      modifies Repr
      ensures unchanged(accountTrie)
      ensures InProgress(plan) && changed.Keys == plan.Keys && fresh(Repr - old(Repr))
      ensures incremental == old(incremental) && effective == old(effective)
      ensures old(forall a :: a in plan ==> CanChange(a, plan[a])) ==> Funded(ATTEMPTS - 1)
    {
      hide InProgress, ChangeOf, Feasible, Contents, StorageOf;
      ghost var able := forall a :: a in plan ==> CanChange(a, plan[a]);
      var todo := targets;
      while todo != {}
        invariant unchanged(accountTrie)
        invariant InProgress(plan) && todo <= targets && changed.Keys == targets - todo && fresh(Repr - old(Repr))
        invariant incremental == old(incremental) && effective == old(effective)
        invariant able ==> Funded(ATTEMPTS - 1) && forall a :: a in todo ==> CanChange(a, plan[a])
      {
        var a :| a in todo;
        PrepareOne(a, outcome[a], plan);
        todo := todo - {a};
      }
    }

    /** Applies the staged changes of every storage trie: true when none misses a node. */
    method ProcessStorages(ghost plan: map<Address, Change>, ghost n: nat) returns (r: Result<bool, string>)
      requires InProgress(plan)
      modifies Repr
      ensures unchanged(accountTrie)
      ensures r.Ok? ==> InProgress(plan) && changed.Keys == old(changed).Keys
      ensures r == Ok(true) ==> forall a :: a in changed ==> changed[a] != InsertsNotProcessed
      ensures Repr == old(Repr) && incremental == old(incremental) && effective == old(effective)
      ensures old(Funded(n)) ==> r.Ok? && (r.value || (n > 0 && Owing(n, {})))
    {
      hide InProgress, Funded, Owing;
      var todo, all := changed.Keys, true;
      AllOwing(plan, n);
      while todo != {}
        invariant unchanged(accountTrie)
        invariant InProgress(plan) && changed.Keys == old(changed).Keys && todo <= changed.Keys
        invariant all ==> forall a :: a in changed && a !in todo ==> changed[a] != InsertsNotProcessed
        invariant Repr == old(Repr) && incremental == old(incremental) && effective == old(effective)
        invariant old(Funded(n)) ==> Owing(n, todo) && (all || n > 0)
      {
        var a :| a in todo;
        if changed[a] == InsertsNotProcessed {
          var one := ProcessOne(a, plan, n, todo);
          if one.Err? {
            return Err(one.error);
          }
          all := all && one.value;
        } else if Owing(n, todo) {
          StillOwing(n, todo, a);
        }
        todo := todo - {a};
      }
      return Ok(all);
    }

    method ProcessOne(a: Address, ghost plan: map<Address, Change>, ghost n: nat, ghost todo: set<Address>)
      returns (r: Result<bool, string>)
      requires InProgress(plan) && a in changed && changed[a] == InsertsNotProcessed
      modifies Repr
      ensures unchanged(accountTrie)
      ensures r.Ok? ==> InProgress(plan)
      ensures r.Ok? ==> changed == old(changed)[a := if r.value then InsertsProcessed else InsertsNotProcessed]
      ensures Repr == old(Repr) && incremental == old(incremental) && effective == old(effective)
      ensures a in todo && old(Owing(n, todo)) ==> r.Ok? && Owing(n, todo - {a}) && (r.value || n > 0)
    {
      hide InProgress, AllBut, AccountsSynced, StorageCalculator.Sound, StorageCalculator.InProgress;
      StorageInRepr(a, plan);
      Focus(a, plan);
      r := ProcessTrie(a, plan);
      if r.Ok? {
        SetStatus(a, if r.value then InsertsProcessed else InsertsNotProcessed, plan);
      }
    }

    lemma StorageInRepr(a: Address, plan: map<Address, Change>)
      requires InProgress(plan) && a in changed
      ensures this in Repr && a in storage && storage[a] in Repr && storage[a].patched in Repr && a in plan
    {
      hide AccountsSynced, StorageCalculator.Sound, StorageCalculator.InProgress;
    }

    method ProcessTrie(a: Address, ghost plan: map<Address, Change>) returns (r: Result<bool, string>)
      requires AllBut(a, plan) && a in storage && a in plan && storage[a].InProgress(InsertsNotProcessed, plan[a])
      modifies storage[a], storage[a].patched
      ensures unchanged(accountTrie)
      ensures r.Ok? ==> AllBut(a, plan)
      ensures r.Ok? ==> storage[a].InProgress(if r.value then InsertsProcessed else InsertsNotProcessed, plan[a])
      ensures forall b :: b in storage && b != a ==> storage[b].View() == old(storage[b].View())
      ensures forall n: nat :: old(storage[a].Ready(n)) ==>
                r.Ok? && (r.value || (n > 0 && storage[a].rounds == Some(n - 1)))
    {
      hide AccountsSynced, StorageCalculator.Sound, StorageCalculator.InProgress, Contents, Parent.Valid;
      r := storage[a].Process(plan[a]);
    }

    /** Loads the nodes that the storage tries miss. */
    method FetchStorages(ghost plan: map<Address, Change>, ghost n: nat)
      requires InProgress(plan)
      modifies Repr
      ensures unchanged(accountTrie)
      ensures InProgress(plan) && changed == old(changed)
      ensures Repr == old(Repr) && incremental == old(incremental) && effective == old(effective)
      ensures n > 0 && old(Owing(n, {})) ==> Funded(n - 1)
    {
      hide InProgress, Owing, Fetched;
      var todo := changed.Keys;
      NoneFetched(plan, n);
      while todo != {}
        invariant unchanged(accountTrie)
        invariant InProgress(plan) && changed == old(changed) && todo <= changed.Keys
        invariant Repr == old(Repr) && incremental == old(incremental) && effective == old(effective)
        invariant n > 0 && old(Owing(n, {})) ==> Fetched(n - 1, todo)
      {
        var a :| a in todo;
        if changed[a] == InsertsNotProcessed {
          FetchOne(a, plan, n, todo);
        } else if n > 0 && Fetched(n - 1, todo) {
          StillFetched(n - 1, todo, a);
        }
        todo := todo - {a};
      }
      if n > 0 && Fetched(n - 1, {}) {
        AllFetched(plan, n - 1);
      }
    }

    method FetchOne(a: Address, ghost plan: map<Address, Change>, ghost n: nat, ghost todo: set<Address>)
      requires InProgress(plan) && a in changed && changed[a] == InsertsNotProcessed
      modifies Repr
      ensures unchanged(accountTrie)
      ensures InProgress(plan) && changed == old(changed)
      ensures Repr == old(Repr) && incremental == old(incremental) && effective == old(effective)
      ensures n > 0 && old(Fetched(n - 1, todo)) ==> Fetched(n - 1, todo - {a})
    {
      hide InProgress, AllBut, AccountsSynced, StorageCalculator.Sound, StorageCalculator.InProgress;
      StorageInRepr(a, plan);
      Focus(a, plan);
      FetchTrie(a, plan);
      SetStatus(a, InsertsNotProcessed, plan);
    }

    /** In the middle of the loading after a round. */
    ghost predicate Fetched(n: nat, todo: set<Address>)
      reads this, Repr
    {
      forall a :: a in changed && a in storage && storage[a] in Repr && storage[a].patched in Repr ==>
        changed[a] == InsertsNotProcessed ==>
          storage[a].rounds == Some(n) && (a in todo || storage[a].patched.missing == [])
    }

    lemma NoneFetched(plan: map<Address, Change>, n: nat)
      requires InProgress(plan)
      ensures n > 0 && Owing(n, {}) ==> Fetched(n - 1, changed.Keys)
    {
    }

    lemma StillFetched(n: nat, todo: set<Address>, a: Address)
      requires Fetched(n, todo) && a in changed && changed[a] != InsertsNotProcessed
      ensures Fetched(n, todo - {a})
    {
    }

    lemma AllFetched(plan: map<Address, Change>, n: nat)
      requires InProgress(plan) && Fetched(n, {})
      ensures Funded(n)
    {
    }

    method FetchTrie(a: Address, ghost plan: map<Address, Change>)
      requires AllBut(a, plan) && a in storage && a in plan && storage[a].InProgress(InsertsNotProcessed, plan[a])
      modifies storage[a].patched
      ensures unchanged(accountTrie)
      ensures AllBut(a, plan) && storage[a].InProgress(InsertsNotProcessed, plan[a]) && storage[a].patched.missing == []
      ensures forall b :: b in storage && b != a ==> storage[b].View() == old(storage[b].View())
    {
      hide AccountsSynced, StorageCalculator.Sound, StorageCalculator.InProgress, Contents, Parent.Valid;
      storage[a].LoadMissing(plan[a]);
    }

    /** Hashes the storage tries that are not hashed yet. */
    method HashStorages(ghost plan: map<Address, Change>)
      requires InProgress(plan) && forall a :: a in changed ==> changed[a] != InsertsNotProcessed
      modifies Repr
      ensures unchanged(accountTrie)
      ensures InProgress(plan) && changed.Keys == old(changed).Keys
      ensures forall a :: a in changed ==> changed[a] == Hashed
      ensures Repr == old(Repr) && incremental == old(incremental) && effective == old(effective)
    {
      hide InProgress, AllBut, AccountsSynced, StorageCalculator.Sound, StorageCalculator.InProgress;
      var todo := changed.Keys;
      while todo != {}
        invariant unchanged(accountTrie)
        invariant InProgress(plan) && changed.Keys == old(changed).Keys && todo <= changed.Keys
        invariant forall a :: a in changed ==> changed[a] == if a in todo then old(changed)[a] else Hashed
        invariant Repr == old(Repr) && incremental == old(incremental) && effective == old(effective)
      {
        var a :| a in todo;
        if changed[a] == InsertsProcessed {
          StorageInRepr(a, plan);
          Focus(a, plan);
          HashTrie(a, plan);
          SetStatus(a, Hashed, plan);
        }
        todo := todo - {a};
      }
    }

    method HashTrie(a: Address, ghost plan: map<Address, Change>)
      requires AllBut(a, plan) && a in storage && a in plan && storage[a].InProgress(InsertsProcessed, plan[a])
      modifies storage[a], storage[a].patched
      ensures unchanged(accountTrie)
      ensures AllBut(a, plan) && storage[a].InProgress(Hashed, plan[a])
    {
      hide AccountsSynced, StorageCalculator.Sound, StorageCalculator.InProgress, Contents, Parent.Valid;
      storage[a].HashTrie(plan[a]);
    }

    // -------------------------------------------------------------------------
    // The account trie

    /** Every storage trie of the plan is hashed. */
    ghost predicate StoragesDone(plan: map<Address, Change>)
      reads this, Repr
    {
      && Shape() && changed.Keys == plan.Keys && plan.Keys <= storage.Keys
      && (forall a :: a in storage ==> storage[a].Sound())
      && forall a :: a in plan ==>
           && storage[a].info == plan[a].info
           && (plan[a].info.Some? ==> storage[a].hash == StorageRoot(parent, a, plan[a].slots))
    }

    lemma HashedIsDone(plan: map<Address, Change>)
      requires InProgress(plan) && changed.Keys == plan.Keys && forall a :: a in changed ==> changed[a] == Hashed
      ensures StoragesDone(plan) && AccountsSynced()
    {
      hide AccountsSynced, RootOf, Overlay, Contents, Parent.Valid, StorageCalculator.InProgress;
      hide StorageCalculator.Sound;
      forall a | a in plan
        ensures storage[a].Sound() && storage[a].info == plan[a].info
        ensures plan[a].info.Some? ==> storage[a].hash == StorageRoot(parent, a, plan[a].slots)
      {
        storage[a].HashedIsRoot(plan[a]);
      }
    }

    /** The trie accounts of the changed accounts; none when a storage hash is missing. */
    method CollectAccounts(ghost plan: map<Address, Change>) returns (r: Option<map<Address, Option<TrieAccount>>>)
      requires StoragesDone(plan)
      ensures r.Some? ==> r.value == Accounts(parent, plan)
      ensures r.None? ==> HasZeroRoot(parent, plan)
    {
      hide StorageRoot, StorageCalculator.Sound, StorageCalculator.IsFor, Parent.Valid;
      var todo := changed.Keys;
      var wants: map<Address, Option<TrieAccount>> := map[];
      while todo != {}
        invariant todo <= changed.Keys && wants == Accounts(parent, plan) - todo
      {
        var a :| a in todo;
        var c := storage[a];
        if c.info.Some? {
          if c.hash == ZeroHash() {
            assert HasZeroRoot(parent, plan) by { assert StorageRoot(parent, a, plan[a].slots) == ZeroHash(); }
            return None;
          }
          wants := wants[a := Some(TrieAccount(c.info.value.nonce, c.info.value.balance, c.hash,
                                               c.info.value.codeHash))];
        } else {
          wants := wants[a := None];
        }
        todo := todo - {a};
      }
      return Some(wants);
    }

    /** Carries out what is staged, loading nodes between attempts. The attempts suffice when they have to. */
    method RunAccountRounds() returns (done: Result<bool, string>)
      requires accountTrie.Inv() && accountTrie.previous == map[] && accountTrie.missing == []
      modifies accountTrie
      ensures done.Ok? ==> accountTrie.Inv() && accountTrie.previous == map[] && AllDone(accountTrie.Now())
      ensures done.Ok? ==> accountTrie.wanted == old(accountTrie.wanted)
      ensures Flagged(old(accountTrie.Now()))
              && (done.Ok? ==> (accountTrie.trie.IsUninit() <==> Idle(old(accountTrie.Now()))))
      ensures !RemovesAbsent(accountTrie.codec, accountTrie.base, old(accountTrie.wanted)) ==>
                Payable(old(accountTrie.Now()), false, ATTEMPTS - 1) ==> done.Ok?
    {
      hide Good, AllDone, Payable, Tried, Idle, RemovesAbsent, Trie.Valid, LoadAll, PatchedTrie.Linked;
      ghost var start := accountTrie.Now();
      ghost var paid := !RemovesAbsent(accountTrie.codec, accountTrie.base, start.wanted)
                        && Payable(start, false, ATTEMPTS - 1);
      FlagCounts(accountTrie.codec, accountTrie.base, start);
      for i := 0 to ATTEMPTS
        invariant accountTrie.Inv() && accountTrie.previous == map[] && accountTrie.wanted == start.wanted
        invariant accountTrie.missing == [] && Flagged(accountTrie.Now())
        invariant Idle(accountTrie.Now()) <==> Idle(start)
        invariant paid ==> i < ATTEMPTS && Payable(accountTrie.Now(), false, ATTEMPTS - 1 - i)
      {
        ghost var s := accountTrie.Now();
        var r := accountTrie.Process(false);
        if r.Err? {
          return r;
        }
        TriedIdle(s, accountTrie.Now(), accountTrie.missing);
        if r.value {
          return r;
        }
        LoadRound(s, paid, if paid then ATTEMPTS - 1 - i else 0);
      }
      return Err("account trie are not processed after 10 iters");
    }

    /** Loads what a round missed. */
    method LoadRound(ghost s: State<Address, TrieAccount>, ghost paid: bool, ghost n: nat)
      requires accountTrie.Inv() && accountTrie.missing != [] && Good(accountTrie.codec, accountTrie.base, s)
      requires Tried(s, accountTrie.Now(), accountTrie.missing, false) && s.wanted == accountTrie.wanted
      requires paid ==> Payable(s, false, n) && !RemovesAbsent(accountTrie.codec, accountTrie.base, s.wanted)
      modifies accountTrie
      ensures accountTrie.Inv() && accountTrie.previous == old(accountTrie.previous)
              && accountTrie.wanted == old(accountTrie.wanted)
      ensures accountTrie.missing == [] && Flagged(accountTrie.Now()) && !Idle(accountTrie.Now())
      ensures paid ==> n > 0 && Payable(accountTrie.Now(), false, n - 1)
    {
      hide Good, Payable, Tried, RemovesAbsent, Trie.Valid, LoadAll, PatchedTrie.Linked;
      TrieIsValid(accountTrie.codec, accountTrie.base, accountTrie.Now());
      FlagCounts(accountTrie.codec, accountTrie.base, accountTrie.Now());
      if paid {
        RoundPaid(accountTrie.codec, accountTrie.base, s, accountTrie.Now(), accountTrie.missing, false, n);
      }
      LoadedSomething(accountTrie.trie, accountTrie.missing);
      accountTrie.LoadMissing();
    }

    /** Brings the account trie from the previous changes to `wants`, keeping what `keep` says, and hashes it. That
        takes no more rounds than there are when the changes are feasible, and there is a root unless nothing was ever
        loaded and nothing is new. */
    method UpdateAccountTrie(wants: map<Address, Option<TrieAccount>>, keep: Address -> bool)
      returns (r: Result<Hash, string>)
      requires accountTrie.Synced() && InUse(accountTrie.codec, wants)
      modifies accountTrie
      ensures r.Ok? ==> accountTrie.Synced() && r.value == RootOf(accountTrie.hashing, accountTrie.trie.AsMap())
      ensures r.Ok? ==> accountTrie.wanted == wants + Keeping(old(accountTrie.previous) - wants.Keys, keep)
      ensures old(accountTrie.trie.IsUninit()) && NothingNew(old(accountTrie.previous), wants, keep) ==> r.Err?
      ensures Feasible(accountTrie.codec, accountTrie.base, old(accountTrie.trie), old(accountTrie.previous), wants,
                       keep, false) ==>
                r.Ok? || (old(accountTrie.trie.IsUninit()) && NothingNew(old(accountTrie.previous), wants, keep))
    {
      hide Good, Settled, RootOf, AllDone, Keeping, Feasible, NothingNew, RemovesAbsent, Payable;
      hide PatchedTrie.Linked, StagedFor;
      accountTrie.StageChanges(wants, keep, false);
      var done := RunAccountRounds();
      if done.Err? {
        return Err(done.error);
      }
      accountTrie.UninitAlike();
      if accountTrie.hashed.IsUninit() {
        return Err("failed to hash account trie");
      }
      TrieIsValid(accountTrie.codec, accountTrie.base, accountTrie.Now());
      RootHashIsRootOf(accountTrie.hashing, accountTrie.trie);
      var root := accountTrie.RootHash();
      accountTrie.Commit();
      return Ok(root);
    }

    /** Applies and hashes all storage tries, loading nodes between attempts. */
    method RunStorages(ghost plan: map<Address, Change>) returns (ok: bool)
      requires InProgress(plan) && changed.Keys == plan.Keys
      modifies Repr
      ensures unchanged(accountTrie)
      ensures ok ==> StoragesDone(plan) && AccountsSynced()
      ensures Repr == old(Repr) && incremental == old(incremental) && effective == old(effective)
      ensures old(Funded(ATTEMPTS - 1)) ==> ok
    {
      hide InProgress, StoragesDone, AccountsSynced, Funded, Owing;
      for i := 0 to ATTEMPTS
        invariant unchanged(accountTrie)
        invariant InProgress(plan) && changed.Keys == plan.Keys
        invariant Repr == old(Repr) && incremental == old(incremental) && effective == old(effective)
        invariant old(Funded(ATTEMPTS - 1)) ==> i < ATTEMPTS && Funded(ATTEMPTS - 1 - i)
      {
        ghost var n: nat := ATTEMPTS - 1 - i;
        var done := ProcessStorages(plan, n);
        if done.Err? {
          return false;
        }
        if done.value {
          HashStorages(plan);
          HashedIsDone(plan);
          return true;
        }
        FetchStorages(plan, n);
      }
      return false;
    }

    /** Nothing of the account trie is loaded and nothing makes it load. */
    ghost predicate NothingToHash(plan: map<Address, Change>, incremental: set<Address>)
      reads accountTrie
    {
      accountTrie.trie.IsUninit() && NothingNew(accountTrie.previous, Accounts(parent, plan), KeepOthers(incremental))
    }

    /** The rounds of a calculation suffice for the account trie, and there is something to hash. */
    ghost predicate CanUpdate(plan: map<Address, Change>, incremental: set<Address>)
      reads accountTrie
    {
      && !HasZeroRoot(parent, plan) && !NothingToHash(plan, incremental)
      && Feasible(accountTrie.codec, accountTrie.base, accountTrie.trie, accountTrie.previous, Accounts(parent, plan),
                  KeepOthers(incremental), false)
    }

    /** Updates and hashes the account trie. */
    method RunAccounts(ghost plan: map<Address, Change>) returns (r: Result<Hash, string>)
      requires StoragesDone(plan) && AccountsSynced() && (incremental != {} ==> plan.Keys == incremental)
      requires forall a :: a in plan ==> parent.accounts.inUse(a)
      modifies accountTrie, this`effective
      ensures r.Ok? ==> Valid() && effective == Merged(old(effective), plan, incremental)
      ensures r.Ok? ==> Holds(effective) && r.value == StateRoot(parent, effective)
      ensures old(CanUpdate(plan, incremental)) ==> r.Ok?
      ensures old(NothingToHash(plan, incremental)) ==> r.Err?
    {
      hide RootOf, Overlay, Contents, Accounts, Keeping, Merged, Parent.Valid, HasZeroRoot, Feasible, Valid;
      hide Trie.AsMap, NothingNew, Settled, PatchedTrie.Linked, StoragesDone;
      ShapeOfDone(plan);
      var wants := CollectAccounts(plan);
      if wants.None? {
        return Err("storage hash is zero");
      }
      AccountLog();
      MergedAccounts(parent, effective, accountTrie.previous, plan, incremental, KeepOthers(incremental));
      AccountsInUse(parent, plan);
      r := UpdateAccounts(wants.value, KeepOthers(incremental), plan);
      TakeEffect(plan);
      if r.Ok? {
        SettledTrie(accountTrie.codec, accountTrie.base, accountTrie.Now());
        DoneIsValid(plan);
      }
    }

    lemma ShapeOfDone(plan: map<Address, Change>)
      requires StoragesDone(plan)
      ensures accountTrie.codec == parent.accounts && accountTrie.hashing == parent.hashing
      ensures accountTrie.base == Contents(parent.accountTrie, KEY_NIBBLES)
    {
      hide StorageCalculator.Sound, Contents, Parent.Valid;
    }

    lemma DoneIsValid(plan: map<Address, Change>)
      requires StoragesDone(plan) && AccountsSynced()
      ensures Valid()
    {
      hide StorageCalculator.Sound, AccountsSynced, Shape;
    }

    ghost method TakeEffect(plan: map<Address, Change>)
      requires StoragesDone(plan)
      modifies this`effective
      ensures StoragesDone(plan) && effective == Merged(old(effective), plan, incremental)
    {
      hide StorageCalculator.Sound, Contents, Parent.Valid, StorageRoot, Merged;
      effective := Merged(effective, plan, incremental);
    }

    /** The storage tries are not touched by the update of the account trie. */
    method UpdateAccounts(wants: map<Address, Option<TrieAccount>>, keep: Address -> bool,
                          ghost plan: map<Address, Change>)
      returns (r: Result<Hash, string>)
      requires StoragesDone(plan) && accountTrie.Synced() && InUse(accountTrie.codec, wants)
      modifies accountTrie
      ensures StoragesDone(plan)
      ensures r.Ok? ==> accountTrie.Synced() && r.value == RootOf(accountTrie.hashing, accountTrie.trie.AsMap())
      ensures r.Ok? ==> accountTrie.wanted == wants + Keeping(old(accountTrie.previous) - wants.Keys, keep)
      ensures old(accountTrie.trie.IsUninit()) && NothingNew(old(accountTrie.previous), wants, keep) ==> r.Err?
      ensures Feasible(accountTrie.codec, accountTrie.base, old(accountTrie.trie), old(accountTrie.previous), wants,
                       keep, false) ==>
                r.Ok? || (old(accountTrie.trie.IsUninit()) && NothingNew(old(accountTrie.previous), wants, keep))
    {
      hide StorageCalculator.Sound, PatchedTrie.Synced, Feasible, NothingNew, Keeping, RootOf, Trie.AsMap;
      hide Contents, Parent.Valid;
      hide StorageRoot;
      r := UpdateAccountTrie(wants, keep);
    }

    lemma AccountsInUse(p: Parent, changes: map<Address, Change>)
      requires forall a :: a in changes ==> p.accounts.inUse(a)
      ensures InUse(p.accounts, Accounts(p, changes))
    {
    }

    lemma AccountLog()
      requires AccountsSynced()
      ensures accountTrie.previous.Keys == effective.Keys
      ensures forall a :: a in effective ==> accountTrie.previous[a].inserted == Account(parent, a, effective[a])
    {
    }

    /** The addresses gathered for incremental mode once these are added. */
    function Gathering(incrementalChange: set<Address>): set<Address>
      reads this`incremental
    {
      if incrementalChange == {} then {} else incremental + incrementalChange
    }

    /** Nothing stands in the way of a calculation: the addresses are known, the rounds suffice for every storage trie
        and for the account trie, and there is something to hash. */
    ghost predicate CanComplete(outcome: Outcome, incremental: set<Address>)
      reads this, Repr, accountTrie
    {
      && incremental <= outcome.Keys
      && var plan := Plan(outcome, incremental);
         && (forall a :: a in plan ==> CanChange(a, plan[a]))
         && CanUpdate(plan, incremental)
    }

    /** The root of the state that an outcome leads to. */
    method Calculate(outcome: Outcome, incrementalChange: set<Address>) returns (r: Result<Hash, string>)
      requires Valid() && parent.Covers(outcome)
      modifies Repr
      ensures fresh(Repr - old(Repr))
      ensures incremental == if incrementalChange == {} then {} else old(incremental) + incrementalChange
      ensures r.Ok? ==> Valid() && incremental <= outcome.Keys
      ensures r.Ok? ==> effective == Effective(old(effective), outcome, incremental)
      ensures r.Ok? ==> Holds(effective) && r.value == StateRoot(parent, effective)
      ensures r.Ok? ==> accountTrie.trie.Valid() && r.value == TrieRoots.Root(parent.hashing, accountTrie.trie.AsMap())
      ensures r.Ok? && incremental == {} ==>
                IsStateAfter(parent, outcome, (set a | a in outcome && outcome[a].modified),
                             Contents(parent.accountTrie, KEY_NIBBLES), accountTrie.trie.AsMap())
      ensures r.Ok? && incremental != {} ==>
                old(accountTrie.trie).Valid()
                && IsStateAfter(parent, outcome, incremental, old(accountTrie.trie).AsMap(), accountTrie.trie.AsMap())
      ensures old(CanComplete(outcome, Gathering(incrementalChange))) ==> r.Ok?
      ensures incremental <= outcome.Keys ==>
                var gathered := old(Gathering(incrementalChange));
                old(NothingToHash(Plan(outcome, gathered), gathered)) ==> r.Err?
    {
      hide AccountsSynced, Valid, Holds, InProgress, StoragesDone, ChangeOf, StateRoot, Merged, CanUpdate;
      hide CanChange, Funded;
      hide NothingToHash, Effective, Parent.Covers, IsStateAfter, Trie.AsMap, Trie.Valid, TrieRoots.Root, Contents;
      InRepr();
      StateHeld();
      Start(incrementalChange);
      if !(incremental <= outcome.Keys) {
        return Err("account with incremental change is not in the BundleState");
      }
      ghost var plan := Plan(outcome, incremental);
      NothingInProgress(plan);
      PrepareAll(outcome, Targets(outcome, incremental), plan);
      var ok := RunStorages(plan);
      if !ok {
        return Err("storage trie are not processed");
      }
      PlanCovered(parent, outcome, incremental);
      MergedIsEffective(effective, outcome, incremental);
      ghost var before := effective;
      r := RunAccounts(plan);
      if r.Ok? {
        HeldRoot();
        EffectiveIsAfter(parent, before, outcome, incremental);
      }
    }

    /** Between calculations the account trie holds the effective changes, of accounts in use. */
    lemma StateHeld()
      requires Valid()
      ensures parent.Valid() && accountTrie.trie.Valid() && accountTrie.trie.AsMap() == NewState(parent, effective)
      ensures forall a :: a in effective ==> parent.accounts.inUse(a)
    {
      hide RootOf, Overlay, Contents, Trie.AsMap, Trie.Valid, Lawful, StorageCalculator.Sound, PatchedTrie.Linked;
      assert forall a :: a in effective ==> a in Accounts(parent, effective);
    }

    lemma HeldRoot()
      requires Holds(effective)
      ensures accountTrie.trie.Valid() && accountTrie.trie.AsMap() == NewState(parent, effective)
      ensures StateRoot(parent, effective) == TrieRoots.Root(parent.hashing, accountTrie.trie.AsMap())
    {
      hide RootOf, NewState, Trie.AsMap, Trie.Valid, TrieRoots.Root, Contents;
      var full := HoldsCanonical(accountTrie.trie);
      TrieRoots.RootIsDefined(parent.hashing, full);
    }

    lemma InRepr()
      requires Valid()
      ensures this in Repr && accountTrie in Repr
    {
    }

    method Start(incrementalChange: set<Address>)
      requires Valid()
      modifies this`incremental, this`changed
      ensures Valid() && changed == map[] && this in Repr && accountTrie in Repr
      ensures incremental == old(Gathering(incrementalChange))
      ensures forall a, change :: CanChange(a, change) <==> old(CanChange(a, change))
    {
      hide AccountsSynced, StorageCalculator.Sound, Feasible, Contents;
      incremental := Gathering(incrementalChange);
      changed := map[];
    }

    lemma NothingInProgress(plan: map<Address, Change>)
      requires Valid() && changed == map[]
      ensures InProgress(plan)
    {
      hide AccountsSynced, StorageCalculator.Sound, Shape;
    }
  }

  /** The changes in effect after a calculation: in incremental mode the other accounts keep theirs. */
  ghost function Merged(before: map<Address, Change>, plan: map<Address, Change>,
                        incremental: set<Address>): map<Address, Change> {
    if incremental == {} then plan else (before - incremental) + plan
  }

  ghost function Effective(before: map<Address, Change>, outcome: Outcome,
                           incremental: set<Address>): map<Address, Change>
    requires incremental <= outcome.Keys
  {
    if incremental == {} then Changes(outcome)
    else (before - incremental) + (map a | a in incremental :: ChangeOf(outcome[a]))
  }

  /** What a calculation puts into effect is what the outcome makes of the accounts it looks at, over the parent state,
      or over what was in effect in incremental mode. */
  lemma EffectiveIsAfter(p: Parent, before: map<Address, Change>, outcome: Outcome, incremental: set<Address>)
    requires p.Valid() && p.Covers(outcome) && incremental <= outcome.Keys
    requires forall a :: a in before ==> p.accounts.inUse(a)
    ensures var now := NewState(p, Effective(before, outcome, incremental));
            && (incremental == {} ==>
                  IsStateAfter(p, outcome, (set a | a in outcome && outcome[a].modified),
                               Contents(p.accountTrie, KEY_NIBBLES), now))
            && (incremental != {} ==> IsStateAfter(p, outcome, incremental, NewState(p, before), now))
  {
    hide IsStateAfter, Overlay, Contents, Parent.Valid, Parent.Covers, ChangeOf, NewState;
    if incremental == {} {
      ChangesAreAfter(p, outcome);
    } else {
      MergedIsAfter(p, outcome, incremental, before);
      var plan := ChangesAt(outcome, incremental);
      assert Effective(before, outcome, incremental) == before + plan;
    }
  }

  lemma ChangesAreAfter(p: Parent, outcome: Outcome)
    requires p.Valid() && p.Covers(outcome)
    ensures IsStateAfter(p, outcome, (set a | a in outcome && outcome[a].modified),
                         Contents(p.accountTrie, KEY_NIBBLES), NewState(p, Changes(outcome)))
  {
    hide IsStateAfter, Overlay, Contents, Parent.Valid, Parent.Covers, ChangeOf, NewState;
    var targets := set a | a in outcome && outcome[a].modified;
    MergedIsAfter(p, outcome, targets, map[]);
    assert map[] + ChangesAt(outcome, targets) == Changes(outcome);
    NothingChanged(p);
  }

  lemma NothingChanged(p: Parent)
    ensures NewState(p, map[]) == Contents(p.accountTrie, KEY_NIBBLES)
  {
    hide Contents;
    assert Accounts(p, map[]) == map[];
    OverlayEmpty<Address, TrieAccount>(p.accounts, Contents(p.accountTrie, KEY_NIBBLES));
  }

  /** The state root of the changes of an outcome is the root after it. */
  lemma StateRootIsAfter(p: Parent, outcome: Outcome)
    requires p.Valid() && p.Covers(outcome)
    ensures IsRootAfter(p, outcome, StateRoot(p, Changes(outcome)))
  {
    hide IsStateAfter, Overlay, Contents, Changes, RootOf, TrieRoots.Root;
    ChangesAreAfter(p, outcome);
    ChangesInUse(p, outcome);
    OverlayRoot(p.accounts, p.hashing, p.accountTrie, Accounts(p, Changes(outcome)));
  }

  lemma ChangesInUse(p: Parent, outcome: Outcome)
    requires p.Covers(outcome)
    ensures InUse(p.accounts, Accounts(p, Changes(outcome)))
  {
    hide Account, ChangeOf;
  }

  lemma MergedIsEffective(before: map<Address, Change>, outcome: Outcome, incremental: set<Address>)
    requires incremental <= outcome.Keys
    ensures Merged(before, Plan(outcome, incremental), incremental) == Effective(before, outcome, incremental)
  {
  }

  lemma PlanCovered(p: Parent, outcome: Outcome, incremental: set<Address>)
    requires incremental <= outcome.Keys && p.Covers(outcome)
    ensures forall a :: a in Plan(outcome, incremental) ==> p.accounts.inUse(a)
    ensures incremental != {} ==> Plan(outcome, incremental).Keys == incremental
  {
  }

  lemma MergedAccounts(p: Parent, before: map<Address, Change>, log: Log<Address, TrieAccount>,
                       plan: map<Address, Change>, incremental: set<Address>, keep: Address -> bool)
    requires log.Keys == before.Keys && forall a :: a in log ==> log[a].inserted == Account(p, a, before[a])
    requires forall a :: keep(a) <==> incremental != {} && a !in incremental
    requires incremental != {} ==> plan.Keys == incremental
    ensures Accounts(p, plan) + Keeping(log - Accounts(p, plan).Keys, keep) ==
              Accounts(p, Merged(before, plan, incremental))
  {
    var left := Accounts(p, plan) + Keeping(log - Accounts(p, plan).Keys, keep);
    var right := Accounts(p, Merged(before, plan, incremental));
    assert Accounts(p, plan).Keys == plan.Keys;
    assert left.Keys == right.Keys;
    assert forall a :: a in left ==> left[a] == right[a];
  }

  // ---------------------------------------------------------------------------
  // What incremental mode needs

  /** The new outcome does to every other account what is in effect, and modifies those it is told about. */
  ghost predicate AgreesOutside(before: map<Address, Change>, outcome: Outcome, incremental: set<Address>) {
    && (forall a :: a in incremental ==> a in outcome && outcome[a].modified)
    && (forall a :: a !in incremental ==> (a in before <==> a in Changes(outcome)))
    && (forall a :: a !in incremental && a in before ==> before[a] == Changes(outcome)[a])
  }

  /** Incremental mode computes what full mode does exactly when the outcome agrees outside the set. */
  lemma IncrementalIsFull(before: map<Address, Change>, outcome: Outcome, incremental: set<Address>)
    requires incremental <= outcome.Keys && incremental != {}
    ensures Effective(before, outcome, incremental) == Changes(outcome) <==> AgreesOutside(before, outcome, incremental)
  {
  }

  lemma FullIsFull(before: map<Address, Change>, outcome: Outcome)
    ensures Effective(before, outcome, {}) == Changes(outcome)
  {
  }

  // ---------------------------------------------------------------------------
  // Whole runs

  /** A call of the calculator; without changed addresses it is a full one. */
  datatype Call = Call(outcome: Outcome, changed: set<Address>)

  /** The addresses gathered since the last full call. */
  ghost function Gathered(calls: seq<Call>, i: nat): set<Address>
    requires i < |calls|
  {
    if calls[i].changed == {} then {}
    else (if i == 0 then {} else Gathered(calls, i - 1)) + calls[i].changed
  }

  /** Incremental calls follow a full one, and each outcome agrees with the one before outside the gathered
      addresses. */
  ghost predicate Chained(calls: seq<Call>) {
    forall i :: 0 <= i < |calls| && calls[i].changed != {} ==>
      i > 0 && AgreesOutside(Changes(calls[i - 1].outcome), calls[i].outcome, Gathered(calls, i))
  }

  /** Full and incremental calculations one after the other, until one fails: every root is that of its own
      outcome, whatever came before. */
  method Replay(calculator: RootHashCalculator, calls: seq<Call>) returns (roots: seq<Hash>)
    requires calculator.Valid() && Chained(calls)
    requires forall i :: 0 <= i < |calls| ==> calculator.parent.Covers(calls[i].outcome)
    modifies calculator.Repr
    ensures |roots| <= |calls|
    ensures forall i :: 0 <= i < |roots| ==> IsRootAfter(calculator.parent, calls[i].outcome, roots[i])
    ensures forall i :: 0 <= i < |roots| ==> roots[i] == StateRoot(calculator.parent, Changes(calls[i].outcome))
    ensures calls != [] && |roots| == |calls| ==> calculator.Holds(Changes(calls[|calls| - 1].outcome))
  {
    hide RootHashCalculator.Valid, RootHashCalculator.Holds, StateRoot, Changes, AgreesOutside;
    hide Parent.Covers, ChangeOf, IsRootAfter, IsStateAfter, Parent.Valid, Trie.AsMap, Trie.Valid, Contents;
    hide TrieRoots.Root, RootHashCalculator.CanComplete, RootHashCalculator.NothingToHash, Effective, NewState;
    roots := [];
    for n := 0 to |calls|
      invariant |roots| == n && calculator.Valid() && fresh(calculator.Repr - old(calculator.Repr))
      invariant forall i :: 0 <= i < n ==> IsRootAfter(calculator.parent, calls[i].outcome, roots[i])
      invariant forall i :: 0 <= i < n ==> roots[i] == StateRoot(calculator.parent, Changes(calls[i].outcome))
      invariant n > 0 ==> calculator.effective == Changes(calls[n - 1].outcome)
      invariant n > 0 ==> calculator.incremental == Gathered(calls, n - 1)
      invariant n > 0 ==> calculator.Holds(Changes(calls[n - 1].outcome))
    {
      var call := calls[n];
      ghost var before := calculator.effective;
      calculator.StateHeld();
      StateRootIsAfter(calculator.parent, call.outcome);
      var r := calculator.Calculate(call.outcome, call.changed);
      if r.Err? {
        return;
      }
      if calculator.incremental != {} {
        IncrementalIsFull(before, call.outcome, calculator.incremental);
      } else {
        FullIsFull(before, call.outcome);
      }
      roots := roots + [r.value];
    }
  }

  // ---------------------------------------------------------------------------
  // The first calculation

  /** Every removal is of a stored key with no more branches on its way than a calculation has rounds for. */
  ghost predicate Shallow<K(!new), V>(c: Codec<K, V>, database: Full, wants: map<K, Option<V>>) {
    forall k :: k in wants && wants[k].None? ==>
      Get(database, c.keyOf(k)).Some? && Branches(database, c.keyOf(k)) <= ATTEMPTS - 2
  }

  /** The changes remove only what the parent has, and nothing that is too deep. */
  ghost predicate WithinReach(p: Parent, changes: map<Address, Change>) {
    && Shallow(p.accounts, p.accountTrie, Accounts(p, changes))
    && forall a :: a in changes && changes[a].info.Some? ==> Shallow(p.slots, p.storageTrie(a), changes[a].slots)
  }

  lemma FreshAble(calculator: RootHashCalculator, outcome: Outcome)
    requires calculator.Valid() && calculator.storage == map[] && calculator.accountTrie.previous == map[]
    requires calculator.accountTrie.trie == Trie(Remote(calculator.parent.accountTrie), [])
    requires var changes := Changes(outcome);
             changes != map[] && !HasZeroRoot(calculator.parent, changes) && WithinReach(calculator.parent, changes)
    ensures calculator.CanComplete(outcome, {})
  {
    hide Feasible, HasZeroRoot, Contents, RootHashCalculator.AccountsSynced;
    var p, changes := calculator.parent, Changes(outcome);
    assert Plan(outcome, {}) == changes;
    forall a | a in changes && changes[a].info.Some?
      ensures Feasible(p.slots, Contents(p.storageTrie(a), KEY_NIBBLES), Trie(Remote(p.storageTrie(a)), []), map[],
                       changes[a].slots, KeepNone, true)
    {
      FreshFeasible(p.slots, p.storageTrie(a), changes[a].slots, KeepNone, true);
    }
    FreshFeasible(p.accounts, p.accountTrie, Accounts(p, changes), KeepOthers({}), false);
    SomethingNew(changes, Accounts(p, changes), KeepOthers({}));
  }

  lemma SomethingNew(changes: map<Address, Change>, wants: map<Address, Option<TrieAccount>>, keep: Address -> bool)
    requires wants.Keys == changes.Keys
    ensures NothingNew(map[], wants, keep) <==> changes == map[]
  {
    assert forall a :: a in wants ==> !Unchanged(map[], wants, a);
    if changes != map[] {
      var a :| a in changes;
      assert a in wants;
    }
  }

  /** The first calculation over a parent block: it gives the root of the outcome whenever the outcome is within
      reach, and fails on an outcome that changes nothing. */
  method FirstRoot(parent: Parent, outcome: Outcome) returns (r: Result<Hash, string>)
    requires parent.Valid() && parent.Covers(outcome)
    ensures r.Ok? ==> IsRootAfter(parent, outcome, r.value)
    ensures r.Ok? ==> r.value == StateRoot(parent, Changes(outcome))
    ensures Changes(outcome) == map[] ==> r.Err?
    ensures var changes := Changes(outcome);
            changes != map[] && !HasZeroRoot(parent, changes) && WithinReach(parent, changes) ==> r.Ok?
  {
    hide RootHashCalculator.Valid, RootHashCalculator.Holds, RootHashCalculator.CanComplete, StateRoot, WithinReach;
    hide HasZeroRoot, Parent.Covers, Parent.Valid, ChangeOf, StorageRoot, NothingNew, IsRootAfter, IsStateAfter;
    StateRootIsAfter(parent, outcome);
    var calculator := new RootHashCalculator(parent);
    if Changes(outcome) != map[] && !HasZeroRoot(parent, Changes(outcome)) && WithinReach(parent, Changes(outcome)) {
      FreshAble(calculator, outcome);
    }
    SomethingNew(Changes(outcome), Accounts(parent, Changes(outcome)), KeepOthers({}));
    assert Plan(outcome, {}) == Changes(outcome);
    r := calculator.Calculate(outcome, {});
  }
}
