# Verified models of rbuilder

This project models the parts of rbuilder that keep state over many steps or promise that a
fast form equals a simple one, and proves those promises for all inputs and all runs.

- **SparseTrie, TrieRoots, HashedTries, LoadingRounds, PatchedTries, RootHash** model the incremental state-root calculator.
  A database trie and its partly loaded in-memory form are related by what they hold, and the
  form that keeps node hashes to the one that does not. The undo-log protocol that storage tries
  and the account trie share is a state machine whose steps keep one invariant; the calculator
  runs it over all accounts, on tries that keep their hashes. The end result is history
  independence: in any run of full and incremental calculations the root is the one of the
  outcome at hand, stated address by address and slot by slot with the trie root of appendix D
  of the Yellow Paper (`TrieRoots`). `LoadingRounds` counts how often nodes have to be loaded, and so when the ten
  attempts of a calculation suffice. **Instances** holds a parent block that meets every
  precondition, and a calculation given up half-way.
- **SszTree** relates the compact SSZ transaction tree to the tree padded with zeros, as the
  section "Merkleization" of the SSZ specification defines it, for every depth and any pair hash.
- **ConflictSets** shows that the one-pass union structure computes connected components.
- **ShareBundles, Bundles, Sorting** model the nested bundle codecs, their normal forms and the
  bytes behind the bundle uuid.
- **OrderReplacement, Backtest** model the replacement of orders by key and sequence number and
  the replay, filtering and completion of a slot's orders.
- **Relay, Payout, UsedState** model the best-bid cache, the gas search and trace merging.

State that the source updates in place is a class whose methods are proved against step
functions on immutable states; the lemmas are about those functions. Hash functions, transaction
codecs, block execution and node storage are parameters: `Hashing`, `Codec`, `TxCodec`, `Trial`
and the database tries of a `Parent`. The laws assumed of them are preconditions: distinct slots
and addresses in use have distinct key hashes (`Lawful`), and the blob-free codec gives back the
transactions at hand (`RoundTrips`).

Where code and comments disagree the model follows the code:

- `crates/test-relay/src/relay.rs:420-422` calls the best bid the highest one. The
  occupied-entry branch does not look again when a bid that is not the best is raised.
  `RaisedBidMissed` is an instance and `HighestUnlessRaised` the exact condition.
- `crates/rbuilder-primitives/src/lib.rs:346` says that moving a hash between the reverting and
  dropping lists gives the same uuid. The two lengths are part of the version 2 buffer, so the
  buffer always differs: `MovingAHashChangesPreimage`.
- `crates/rbuilder/src/live_builder/order_input/order_replacement_manager.rs:105-108` says that a
  cancelled key ignores new orders and that a cancellation always wins. Both are decided by
  sequence number: `DecisionIsLatest`.
- `crates/rbuilder-primitives/src/serialize.rs:163` says that the uuid takes priority over the
  nonce; it takes priority over `replacement_uuid`.

## Model

| member | source | states |
|---|---|---|
| `SparseTrie.SameContentsSameTrie` | crates/eth-sparse-mpt/src/v2/trie/mod.rs:59-73 | two tries in canonical shape are equal exactly when they hold the same keys and values |
| `SparseTrie.Distinguish` | crates/eth-sparse-mpt/src/v2/trie/mod.rs:59-73 | two different canonical tries have a key at which they differ, and it is produced |
| `SparseTrie.InsertSound` | crates/eth-sparse-mpt/src/v2/trie/mod.rs:197-358 | an insertion keeps the shape canonical, whatever part of the trie is loaded |
| `SparseTrie.InsertLookup` | crates/eth-sparse-mpt/src/v2/trie/mod.rs:197-358 | after an insertion the key has the new value and every other path what it had, and the value returned is the one replaced |
| `SparseTrie.InsertIsUpdate` | crates/eth-sparse-mpt/src/v2/trie/mod.rs:197-358 | an insertion that finds its nodes is a map update on the contents of the whole trie, including what is not loaded |
| `SparseTrie.DeleteSound` | crates/eth-sparse-mpt/src/v2/trie/mod.rs:376-701 | a deletion keeps the shape canonical: a branch left with one child dissolves into it and keys merge |
| `SparseTrie.DeleteLookup` | crates/eth-sparse-mpt/src/v2/trie/mod.rs:376-701 | after a deletion the key is gone and every other path has what it had; "key not found" is only reported for an absent key |
| `SparseTrie.DeleteIsRemoval` | crates/eth-sparse-mpt/src/v2/trie/mod.rs:376-701 | a deletion that finds its nodes removes exactly the key from the contents of the whole trie, and returns the value that was there |
| `SparseTrie.RevealKeepsTrie` | crates/eth-sparse-mpt/src/v2/trie/mod.rs:993-1009 | adding the nodes of a proof does not change the trie that the loaded part stands for |
| `SparseTrie.RevealSound` | crates/eth-sparse-mpt/src/v2/trie/mod.rs:1012-1168 | adding the nodes of a proof keeps the loaded part in canonical shape |
| `SparseTrie.Trie.InsertStored` | crates/eth-sparse-mpt/src/v2/trie/mod.rs:197-358 | inserting a value by its handle: map update, or nothing at all and a missing node |
| `SparseTrie.Trie.InsertValue` | crates/eth-sparse-mpt/src/v2/trie/mod.rs:137-148 | inserting new bytes: map update, with earlier handles still good, or nothing at all and a missing node |
| `SparseTrie.Trie.DeleteKey` | crates/eth-sparse-mpt/src/v2/trie/mod.rs:376-701 | deleting: map removal, or nothing at all and a missing node or an absent key |
| `SparseTrie.Trie.AddProof` | crates/eth-sparse-mpt/src/v2/trie/mod.rs:993-1009 | afterwards nothing on the path is remote, every path that was loaded still is, and contents and earlier handles stay as they are |
| `SparseTrie.SparseRlpIsFullRlp` | crates/eth-sparse-mpt/src/v2/trie/mod.rs:703-752 | the encoding of the root computed from loaded nodes and kept pointers is that of the whole trie |
| `SparseTrie.RootHashIsRootOf` | crates/eth-sparse-mpt/src/v2/trie/mod.rs:783-795 | the root hash is a function of the contents alone, whatever operations led there and whatever is loaded |
| `TrieRoots.RlpIsNode` | crates/eth-sparse-mpt/src/v2/trie/mod.rs:703-752 | the encoding of a canonical trie is the node that appendix D of the Yellow Paper defines over its keys and values alone: leaf, extension or branch by what the keys share, children as they are below 32 bytes and by hash otherwise |
| `TrieRoots.RootIsDefined` | crates/eth-sparse-mpt/src/v2/trie/mod.rs:783-795 | the root hash of a canonical trie is the root that the same definition gives its contents |
| `SparseTrie.InsertLoaded` | crates/eth-sparse-mpt/src/v2/trie/mod.rs:197-358 | with everything loaded an insertion misses no node, and everything stays loaded |
| `SparseTrie.DeleteLoaded` | crates/eth-sparse-mpt/src/v2/trie/mod.rs:376-701 | with everything loaded a deletion misses no node, and everything stays loaded |
| `SparseTrie.InsertMisses` | crates/eth-sparse-mpt/src/v2/trie/mod.rs:197-358 | an insertion misses a node exactly when some node on its path is not loaded |
| `SparseTrie.RevealKeepsWalked` | crates/eth-sparse-mpt/src/v2/trie/mod.rs:1012-1168 | adding the nodes of a proof leaves every loaded path loaded |
| `HashedTries.EncodeIsRlp` | crates/eth-sparse-mpt/src/v2/trie/mod.rs:703-752 | the encoding from kept child pointers is the encoding from scratch |
| `HashedTries.HashKeeps` | crates/eth-sparse-mpt/src/v2/trie/mod.rs:797-853 | hashing what is not hashed, children first, leaves only right pointers |
| `HashedTries.InsertErases` | crates/eth-sparse-mpt/src/v2/trie/mod.rs:197-358 | apart from hashes, the insertion that clears marks on its way is the plain one; a miss changes marks only |
| `HashedTries.InsertKept` | crates/eth-sparse-mpt/src/v2/trie/mod.rs:214 | after an insertion every pointer still marked as kept is right: splits, moved children and replaced leaves included |
| `HashedTries.MissedInsertKept` | crates/eth-sparse-mpt/src/v2/trie/mod.rs:221-225 | so it is after an insertion that missed a node |
| `HashedTries.DeleteErases` | crates/eth-sparse-mpt/src/v2/trie/mod.rs:376-701 | apart from hashes, the deletion that clears marks on its way is the plain one |
| `HashedTries.DeleteKept` | crates/eth-sparse-mpt/src/v2/trie/mod.rs:588-618 | after a deletion every pointer still marked as kept is right: orphans that take on nibbles are unmarked, an orphan branch may keep its pointer |
| `HashedTries.RevealErases` | crates/eth-sparse-mpt/src/v2/trie/mod.rs:993-1009 | apart from hashes, loading nodes with marks is the plain loading |
| `HashedTries.RevealKept` | crates/eth-sparse-mpt/src/v2/trie/mod.rs:1070-1071 | after loading nodes every pointer still marked as kept is right |
| `HashedTries.KeptExtend` | crates/eth-sparse-mpt/src/v2/trie/mod.rs:144-148 | storing more values spoils no kept pointer |
| `HashedTries.HashedTrie.InsertStored` | crates/eth-sparse-mpt/src/v2/trie/mod.rs:197-358 | the insertion by handle that keeps hashes: the reply and the contents of the plain one, and right pointers |
| `HashedTries.HashedTrie.InsertValue` | crates/eth-sparse-mpt/src/v2/trie/mod.rs:137-148 | the same for new bytes, which are stored only when the insertion goes through |
| `HashedTries.HashedTrie.DeleteKey` | crates/eth-sparse-mpt/src/v2/trie/mod.rs:376-701 | the same for deletion |
| `HashedTries.HashedTrie.AddProof` | crates/eth-sparse-mpt/src/v2/trie/mod.rs:993-1009 | the same for loading nodes |
| `HashedTries.HashedTrie.RootHash` | crates/eth-sparse-mpt/src/v2/trie/mod.rs:783-853 | the root hash from kept pointers is the one computed anew, and the contents stay |
| `HashedTries.StepAgrees` | crates/eth-sparse-mpt/src/v2/trie/mod.rs:113-1168 | each operation on the marked trie agrees with the plain one in result and contents and keeps all pointers right |
| `HashedTries.KeptHashesInvisible` | crates/eth-sparse-mpt/src/v2/trie/mod.rs:783-853 | over any sequence of insertions, deletions, loads and root hashes, every reply is that of a trie that hashes everything anew |
| `PatchedTries.UndoInAnyOrder` | crates/eth-sparse-mpt/src/v2/mod.rs:363-371 | putting the parent values back at every patched key, in any order, gives the parent state |
| `PatchedTries.ClearKeeps` | crates/eth-sparse-mpt/src/v2/mod.rs:231-249 | starting a calculation from a settled trie establishes the invariant of a calculation in progress |
| `PatchedTries.KeepKeeps` | crates/eth-sparse-mpt/src/v2/mod.rs:333-341 | keeping an op whose value is still wanted keeps the invariant |
| `PatchedTries.DoomKeeps` | crates/eth-sparse-mpt/src/v2/mod.rs:342-346 | staging the revert of an op keeps the invariant |
| `PatchedTries.StageInsertKeeps` | crates/eth-sparse-mpt/src/v2/mod.rs:348-355 | staging an insertion keeps the invariant |
| `PatchedTries.StageDeleteKeeps` | crates/eth-sparse-mpt/src/v2/mod.rs:356-360 | staging a deletion keeps the invariant |
| `PatchedTries.RevertKeeps` | crates/eth-sparse-mpt/src/v2/mod.rs:494-529 | a revert that took effect keeps the invariant: the trie is the parent state with one change less on top |
| `PatchedTries.InsertKeeps` | crates/eth-sparse-mpt/src/v2/mod.rs:535-561 | an insertion that took effect keeps the invariant: the recorded revert value is the parent value at the key |
| `PatchedTries.DeleteKeeps` | crates/eth-sparse-mpt/src/v2/mod.rs:563-589 | a deletion that took effect keeps the invariant: the recorded revert value is the parent value at the key |
| `PatchedTries.CommitKeeps` | crates/eth-sparse-mpt/src/v2/mod.rs:695-699 | when all flags are set there is one recorded op for each wanted key, the trie is the parent state with exactly what is wanted on top, and the log undoes exactly that |
| `PatchedTries.OverlayRoot` | crates/eth-sparse-mpt/src/v2/mod.rs:963-1033 | every patched state is held by some canonical trie, and its root is the one defined over its keys and values |
| `PatchedTries.OnlyReverts` | crates/eth-sparse-mpt/src/v2/mod.rs:530-533 | while a revert is pending no insertion or deletion took effect |
| `PatchedTries.RevertEffects` | crates/eth-sparse-mpt/src/v2/mod.rs:494-529 | each revert takes effect once and its flag says so |
| `PatchedTries.InsertEffects` | crates/eth-sparse-mpt/src/v2/mod.rs:535-561 | each insertion takes effect once, after every revert, and its flag says so |
| `PatchedTries.DeleteEffects` | crates/eth-sparse-mpt/src/v2/mod.rs:563-589 | each deletion takes effect once, after every revert, and its flag says so |
| `PatchedTries.RevertReady` | crates/eth-sparse-mpt/src/v2/mod.rs:501-519 | a revert never fails: its value is stored, or its key is there to delete, so the bail-out of line 515 is unreachable |
| `PatchedTries.DeleteReady` | crates/eth-sparse-mpt/src/v2/mod.rs:563-589 | when a deletion is tried its key is in the trie exactly when the parent state has it |
| `PatchedTries.AbandonedIsSettled` | crates/eth-sparse-mpt/src/v2/mod.rs:230-249 | giving up a calculation leaves the between-calls invariant intact exactly when nothing in the dropped log differs from the parent state |
| `Instances.GivenUpHalfWay` | crates/eth-sparse-mpt/src/v2/mod.rs:230-249 | an instance: a write took effect, a removal of an absent key fails, the log is dropped; the next calculation wants nothing, has nothing to do and hashes to a wrong root |
| `PatchedTries.SettledRemovesPresent` | crates/eth-sparse-mpt/src/v2/mod.rs:585-587 | a calculation that wants to remove a key the parent state does not have never completes |
| `PatchedTries.PatchedTrie.Clear` | crates/eth-sparse-mpt/src/v2/mod.rs:231-249 | the log of the last calculation is kept, everything staged is dropped |
| `PatchedTries.PatchedTrie.Rest` | crates/eth-sparse-mpt/src/v2/mod.rs:314-324 | for an account without info the trie and its log stay as they were |
| `PatchedTries.PatchedTrie.Stage` | crates/eth-sparse-mpt/src/v2/mod.rs:326-361 | one wanted change is kept, reverted and staged, or staged, and leaves the previous log |
| `PatchedTries.PatchedTrie.StageAll` | crates/eth-sparse-mpt/src/v2/mod.rs:326-361 | all wanted changes, in any order: the wanted patch is exactly what was asked for |
| `PatchedTries.PatchedTrie.Drain` | crates/eth-sparse-mpt/src/v2/mod.rs:753-766 | what is left of the previous log is kept or staged for revert as told, and nothing else changes |
| `PatchedTries.PatchedTrie.StageChanges` | crates/eth-sparse-mpt/src/v2/mod.rs:305-361 | staging everything leaves nothing to do exactly when the previous changes are the wanted ones; when going from the one to the other is feasible, nine rounds of loading pay for it |
| `PatchedTries.StagedIdle` | crates/eth-sparse-mpt/src/v2/mod.rs:326-361 | something is staged exactly when a wanted change is new or a previous one is unwanted |
| `PatchedTries.PatchedTrie.TryRevert` | crates/eth-sparse-mpt/src/v2/mod.rs:501-520 | the parent value is back, or nothing changed and a missing node is named |
| `PatchedTries.PatchedTrie.RevertOne` | crates/eth-sparse-mpt/src/v2/mod.rs:494-529 | revert `i` takes effect and sets its flag, or reports a missing node and changes nothing |
| `PatchedTries.PatchedTrie.InsertOne` | crates/eth-sparse-mpt/src/v2/mod.rs:535-561 | insertion `i` takes effect, sets its flag and is recorded, or reports a missing node and changes nothing |
| `PatchedTries.PatchedTrie.DeleteOne` | crates/eth-sparse-mpt/src/v2/mod.rs:563-589 | deletion `i` takes effect, sets its flag and is recorded, or reports a missing node; it fails only on a key that the parent state does not have |
| `PatchedTries.PatchedTrie.Process` | crates/eth-sparse-mpt/src/v2/mod.rs:488-595 | keeps the invariant for any pattern of missing nodes and only adds effects; what is done, what is left and which nodes are named are those of trying the pending reverts and, when none is left, the pending changes; `true` means every flag is set, `false` that a missing node is named, which does not happen once everything is loaded; it fails only if a wanted removal is of a key the parent state does not have |
| `PatchedTries.PatchedTrie.LoadMissing` | crates/eth-sparse-mpt/src/v2/mod.rs:619-673 | every reported path is loaded afterwards, every loaded path still is, and the invariant holds |
| `PatchedTries.PatchedTrie.Commit` | crates/eth-sparse-mpt/src/v2/mod.rs:695-699 | swapping the logs after everything is done settles the trie |
| `PatchedTries.PatchedTrie.RootHash` | crates/eth-sparse-mpt/src/v2/trie/mod.rs:783-853 | the hash from kept pointers is that of the plain trie |
| `PatchedTries.TriedIdle` | crates/eth-sparse-mpt/src/v2/trie/mod.rs:789-791 | a round on a trie of which nothing is loaded, with nothing to do, loads nothing; any other round that misses nothing leaves a root |
| `PatchedTries.RoundPays` | crates/eth-sparse-mpt/src/v2/mod.rs:993-1009 | a round that missed nodes, with the loading of them, uses up one of the rounds that the pending reverts and changes need |
| `PatchedTries.FreshFeasible` | crates/eth-sparse-mpt/src/v2/mod.rs:992-1033 | over a database trie of which nothing is loaded the rounds of a calculation suffice, if every removed key is stored with at most eight branches on its way |
| `LoadingRounds.DeleteMisses` | crates/eth-sparse-mpt/src/v2/trie/mod.rs:412-431 | a deletion misses a node exactly when there is a remote node on its way or a branch on it whose only other child is remote |
| `LoadingRounds.LoadingHelps` | crates/eth-sparse-mpt/src/v2/trie/mod.rs:412-431 | loading the path that a deletion reported lowers the number of its misses by exactly one |
| `LoadingRounds.RoundsNeeded` | crates/eth-sparse-mpt/src/v2/mod.rs:993-1009 | a deletion is through after exactly as many rounds of loading as it has misses |
| `LoadingRounds.TenRoundsSuffice` | crates/eth-sparse-mpt/src/v2/mod.rs:993-1009 | over a database trie of which nothing is loaded the ten attempts suffice for a deletion exactly when at most eight branches with two children are on its way |
| `LoadingRounds.EleventhRound` | crates/eth-sparse-mpt/src/v2/mod.rs:993-1009 | a stored key below nine such branches, whose deletion needs an eleventh attempt |
| `LoadingRounds.InsertDebt` | crates/eth-sparse-mpt/src/v2/trie/mod.rs:197-358 | an insertion does not make the removal of another key need more loading |
| `LoadingRounds.DeleteDebt` | crates/eth-sparse-mpt/src/v2/trie/mod.rs:376-701 | nor does a deletion, whatever branches it dissolves |
| `LoadingRounds.RevealTwiceDebt` | crates/eth-sparse-mpt/src/v2/trie/mod.rs:993-1009 | nor does having loaded other nodes before |
| `LoadingRounds.InsertWalked` | crates/eth-sparse-mpt/src/v2/trie/mod.rs:197-358 | an insertion leaves every loaded path loaded |
| `LoadingRounds.DeleteWalked` | crates/eth-sparse-mpt/src/v2/trie/mod.rs:376-701 | a deletion leaves every loaded path loaded |
| `LoadingRounds.AttemptsDue` | crates/eth-sparse-mpt/src/v2/mod.rs:488-595 | after trying a list of operations none is left exactly when nothing was missed, and loading what was missed brings every one that is left a round closer |
| `LoadingRounds.RoundsSuffice` | crates/eth-sparse-mpt/src/v2/mod.rs:993-1009 | a list of insertions and removals of different keys is through when there are more attempts than the loading bound of each |
| `LoadingRounds.TenRoundsSufficeForAll` | crates/eth-sparse-mpt/src/v2/mod.rs:993-1009 | from a trie of which nothing is loaded, ten attempts suffice for any such list whose removed keys are stored with at most eight branches on their way |
| `RootHash.StorageCalculator.constructor` | crates/eth-sparse-mpt/src/v2/mod.rs:202-229 | a new calculator is sound: nothing applied, no hash |
| `Instances.EmptyParentValid` | crates/eth-sparse-mpt/src/v2/mod.rs:202-229 | there is a parent block that the calculator accepts with every address and slot in use and any outcome on top |
| `RootHash.StorageCalculator.Prepare` | crates/eth-sparse-mpt/src/v2/mod.rs:305-392 | wanted are exactly the slots whose present value differs from the original one, with the present value or without one when it is zero; the `Hashed` status is given only when the kept hash is the root of what the trie holds and that is what is wanted; otherwise the hash is cleared; if the change is feasible, nine rounds of loading are enough for it |
| `RootHash.StorageCalculator.Process` | crates/eth-sparse-mpt/src/v2/mod.rs:488-595 | `true` means every change of this storage trie is applied and its root is loaded; with the rounds counted, it does not fail, and either is done or needs one round less |
| `RootHash.StorageCalculator.HashTrie` | crates/eth-sparse-mpt/src/v2/mod.rs:688-699 | the new hash is the root of the contents, and the log is the one just applied |
| `RootHash.StorageIsAfter` | crates/eth-sparse-mpt/src/v2/mod.rs:326-361 | the storage behind a root holds, slot by slot, the present value where it changed, nothing where it changed to zero and the parent value everywhere else |
| `RootHash.AccountIsAfter` | crates/eth-sparse-mpt/src/v2/mod.rs:706-730 | an account carries nonce, balance and code hash of its info and the root of that storage, and is removed without info |
| `RootHash.EffectiveIsAfter` | crates/eth-sparse-mpt/src/v2/mod.rs:751-766 | the account trie after a call is, address by address, what the outcome makes of the accounts looked at, over the parent state, or over the account trie before in incremental mode |
| `RootHash.StateRootIsAfter` | crates/eth-sparse-mpt/src/v2/mod.rs:963-1033 | the state root is the root, by definition over keys and values, of the parent state with every modified account of the outcome written over it |
| `RootHash.RootHashCalculator.GetStorage` | crates/eth-sparse-mpt/src/v2/mod.rs:288-303 | the account has a calculator and no other is touched |
| `RootHash.RootHashCalculator.PrepareAll` | crates/eth-sparse-mpt/src/v2/mod.rs:394-421 | all targets are prepared, in any order, and the other storage tries stay sound |
| `RootHash.RootHashCalculator.ProcessStorages` | crates/eth-sparse-mpt/src/v2/mod.rs:597-617 | `true` means no account is left unprocessed; the invariant of the calculation holds either way; when every unfinished trie needs at most n rounds it does not fail, and otherwise n was positive and each needs one less |
| `RootHash.RootHashCalculator.FetchStorages` | crates/eth-sparse-mpt/src/v2/mod.rs:619-673 | loading nodes changes no status, keeps the invariant and leaves nothing reported missing |
| `RootHash.RootHashCalculator.HashStorages` | crates/eth-sparse-mpt/src/v2/mod.rs:675-701 | every changed account ends hashed |
| `RootHash.RootHashCalculator.CollectAccounts` | crates/eth-sparse-mpt/src/v2/mod.rs:706-718 | the collected accounts carry the roots of their parent storage overlaid with their changed slots |
| `RootHash.RootHashCalculator.UpdateAccountTrie` | crates/eth-sparse-mpt/src/v2/mod.rs:1011-1033 | the account trie ends with the collected accounts and the kept ones on top of the parent, and the result is its root; it succeeds whenever the change is feasible, unless nothing was ever loaded and nothing is new, when it fails |
| `RootHash.RootHashCalculator.RunStorages` | crates/eth-sparse-mpt/src/v2/mod.rs:992-1009 | success means every storage trie is applied and hashed; it succeeds when every unfinished trie needs at most nine rounds of loading |
| `RootHash.RootHashCalculator.RunAccounts` | crates/eth-sparse-mpt/src/v2/mod.rs:1011-1033 | success means the account trie holds the merged changes and the result is their state root; it succeeds when nothing stands in the way, and fails when there is nothing to hash |
| `RootHash.RootHashCalculator.Calculate` | crates/eth-sparse-mpt/src/v2/mod.rs:963-1033 | after Ok the account trie holds, address by address, what the outcome makes of the accounts looked at and what was there of all others, every slot of a storage root likewise; the result is the root of that by definition; the between-calls invariant holds (so every kept hash is the root of its trie); the call succeeds whenever the given addresses are in the outcome, every storage change and the account change is feasible and there is something to hash |
| `RootHash.MergedAccounts` | crates/eth-sparse-mpt/src/v2/mod.rs:751-766 | what the account trie keeps in incremental mode, with what is staged, is the merge of the old and the new changes |
| `RootHash.IncrementalIsFull` | crates/eth-sparse-mpt/src/v2/mod.rs:397-405 | an incremental call has the effect of a full one exactly when the outcome agrees with what is in effect outside the accumulated set and modifies every account in it |
| `RootHash.Replay` | crates/eth-sparse-mpt/src/v2/mod.rs:963-1033 | over any run of full and agreeing incremental calls, every root is that of the parent state with the modified accounts of its own outcome written over it, address by address and slot by slot, whatever came before |
| `RootHash.FirstRoot` | crates/eth-sparse-mpt/src/v2/mod.rs:963-1033 | the first calculation over a parent block gives the root of the parent state with the modified accounts of its outcome written over it whenever the outcome removes only stored keys with at most eight branches on their way and no storage root is zero, and fails on an outcome that changes nothing |
| `SszTree.ZeroSubtrees` | crates/rbuilder-primitives/src/mev_boost/ssz_roots.rs:66-73 | entry k is the hash of an all-zero subtree of height k |
| `SszTree.FromLeaves` | crates/rbuilder-primitives/src/mev_boost/ssz_roots.rs:82-110 | the levels hold exactly the nodes of the padded tree above real leaves, up to the first single node |
| `SszTree.Parents` | crates/rbuilder-primitives/src/mev_boost/ssz_roots.rs:98-106 | the next level is made of the padded tree's nodes |
| `SszTree.WidthIsCeiling` | crates/rbuilder-primitives/src/mev_boost/ssz_roots.rs:98-106 | a level has as many nodes as it takes to stand above all leaves |
| `SszTree.Proof` | crates/rbuilder-primitives/src/mev_boost/ssz_roots.rs:112-131 | the branch of siblings that the compact levels give |
| `SszTree.CompactBranchExact` | crates/rbuilder-primitives/src/mev_boost/ssz_roots.rs:112-131 | for any target the compact branch is the padded tree's branch exactly when every sibling it forgets hashes like zeros |
| `SszTree.NothingForgotten` | crates/rbuilder-primitives/src/mev_boost/ssz_roots.rs:115-119 | for a target among the leaves no sibling is forgotten |
| `SszTree.CompactProofIsFullProof` | crates/rbuilder-primitives/src/mev_boost/ssz_roots.rs:67-131 | for every depth, at most 2^depth leaves and any target among them, the compact branch is the full tree's branch and folds the leaf to the full merkleization root |
| `SszTree.TargetBeyondLeaves` | crates/rbuilder-primitives/src/mev_boost/ssz_roots.rs:112-131 | a concrete target beyond the leaves whose compact branch is not the full tree's |
| `SszTree.VanillaProof` | crates/rbuilder-primitives/benches/ssz_proof.rs:128-167 | the level-by-level computation on the padded tree gives the padded tree's branch |
| `SszTree.RootIsNode` | crates/rbuilder-primitives/benches/ssz_proof.rs:134-158 | halving all levels of the padded leaves gives the top node of the padded tree |
| `SszTree.ThreeLeaves` | crates/rbuilder-primitives/benches/ssz_proof.rs:134-167 | three leaves at depth two: root, branch and fold written out |
| `SszTree.FoldFrom` | crates/rbuilder-primitives/src/mev_boost/ssz_roots.rs:112-131 | folding the rest of a branch from any level gives the node it leads to |
| `SszTree.PlaceholderProof` | crates/rbuilder/src/building/bid_adjustments.rs:78-99 | with a correct leaf cache the proof leads from the last transaction to the root of all of them, and the cache stays correct |
| `ConflictSets.GetConflictSets` | crates/rbuilder/src/building/conflict.rs:119-169 | the result is exactly the connected components of the conflict graph, each once, largest first, for every visiting order |
| `ConflictSets.ComponentsUnique` | crates/rbuilder/src/building/conflict.rs:119-169 | the graph determines its components, so any two visiting orders give the same sets |
| `ConflictSets.ComponentsDisjoint` | crates/rbuilder/src/building/conflict.rs:119-169 | different components do not overlap |
| `ConflictSets.AddEdge` | crates/rbuilder/src/building/conflict.rs:126-164 | a partition that holds the components of the pairs visited so far holds those with one more pair after joining its ends |
| `ConflictSets.MergeSets` | crates/rbuilder/src/building/conflict.rs:138-145 | merging moves all members of the second set and their ownership to the first |
| `ConflictSets.Visit` | crates/rbuilder/src/building/conflict.rs:131-163 | one visit keeps the two maps consistent, so none of the lookups can fail |
| `ConflictSets.Values` | crates/rbuilder/src/building/conflict.rs:165-165 | the sets of the partition, each once, in any order |
| `ConflictSets.SortBySize` | crates/rbuilder/src/building/conflict.rs:166-166 | a permutation in ascending size |
| `ShareBundles.CountIsLength` | crates/rbuilder-primitives/src/lib.rs:461-495 | the transaction count of a bundle is the length of its list of transactions |
| `ShareBundles.ExtractCounts` | crates/rbuilder-primitives/src/serialize.rs:705-776 | at any nesting: on success the count moved by the number of raw transactions and the listed transactions are those decoded one for one, each allowed to revert exactly when its mode is allow or drop or it has none and the old flag is set; on a transaction failure the index is that of the first failing transaction, depth first |
| `ShareBundles.DecodeCounts` | crates/rbuilder-primitives/src/serialize.rs:611-659 | the same for a whole bundle, from count zero |
| `ShareBundles.ExtractIs` | crates/rbuilder-primitives/src/serialize.rs:685-776 | decoding succeeds exactly when depth, version, transactions, bodies and refund sums all pass, looked at in that sequence through the nesting, and fails with the error of the first that does not; the result matches the raw form body by body, with the revert behaviour of each transaction and the refunds of each nesting |
| `ShareBundles.MatchesUnique` | crates/rbuilder-primitives/src/serialize.rs:705-776 | a raw bundle has at most one matching decoded form |
| `ShareBundles.DecodeMeans` | crates/rbuilder-primitives/src/serialize.rs:611-659 | every outcome of decoding a share bundle with its exact condition: cancellation and its error, the first failing check, or a bundle whose block, maximal block, signer, replacement data, count and hash are those of the raw fields |
| `ShareBundles.HashSlowIs` | crates/rbuilder-primitives/src/lib.rs:515-534 | the hash of a bundle is that of its only body, or that of the hashes of all bodies |
| `ShareBundles.FlattenAt` | crates/rbuilder-primitives/src/lib.rs:527-532 | the hashes stand one after the other in what is hashed |
| `ShareBundles.EncodedRevert` | crates/rbuilder-primitives/src/serialize.rs:679-685 | an encoded transaction says how it may revert in both forms, as fail, allow or drop |
| `ShareBundles.ExtractIsDecodable` | crates/rbuilder-primitives/src/serialize.rs:705-776 | whatever was decoded is nested within the limit, has refunds in bounds and no internal field set |
| `ShareBundles.EncodeThenExtract` | crates/rbuilder-primitives/src/serialize.rs:779-825 | encoding a decoded inner bundle and decoding it at the same depth gives it back, with its count |
| `ShareBundles.ShareBundleNormalForm` | crates/rbuilder-primitives/src/serialize.rs:611-675 | a decoded share bundle, encoded without blobs and decoded again, is the same bundle, hash included |
| `ShareBundles.SameBody` | crates/rbuilder-primitives/src/serialize.rs:705-776 | metadata and replacement data play no part in extracting the inner bundle |
| `ShareBundles.ExtractInnerBundle` | crates/rbuilder-primitives/src/serialize.rs:705-776 | the loop that threads the count gives the decoded form that matches the raw one, or the error of the first check that does not pass |
| `Bundles.VarIntPrefixFree` | crates/rbuilder-primitives/src/lib.rs:320-324 | no varint is the beginning of another |
| `Bundles.PreimageV2Injective` | crates/rbuilder-primitives/src/lib.rs:304-342 | equal version 2 buffers come from equal block, timestamps, hash, sorted lists and refund |
| `Bundles.PreimageV1Injective` | crates/rbuilder-primitives/src/lib.rs:274-288 | equal version 1 buffers come from equal block, hash and sorted reverting list |
| `Bundles.FillBuffer` | crates/rbuilder-primitives/src/lib.rs:304-341 | the in-place filling of the buffer gives the version 2 preimage |
| `Bundles.AppendHashes` | crates/rbuilder-primitives/src/lib.rs:328-333 | appends the hashes in sequence |
| `Bundles.ConcatAt` | crates/rbuilder-primitives/src/lib.rs:328-333 | the hashes stand one after the other in the buffer |
| `Bundles.FillRefund` | crates/rbuilder-primitives/src/lib.rs:334-340 | appends the refund fields, or nothing |
| `Bundles.BundleNormalForm` | crates/rbuilder-primitives/src/serialize.rs:326-428 | a decoded bundle, encoded without blobs and decoded again, is the same bundle, hash and uuid included |
| `Bundles.HashSlowHashes` | crates/rbuilder-primitives/src/lib.rs:304-357 | for any bundle: the lists come out sorted, the hash is over the transaction hashes, and the uuid over block, timestamps with their defaults, list lengths, hash, lists and refund in that sequence |
| `Bundles.VarIntDigits` | crates/rbuilder-primitives/src/lib.rs:320-324 | a varint holds its number in base 128, lowest digit first, in as few digits as it takes |
| `Bundles.SortHashesSorts` | crates/rbuilder-primitives/src/serialize.rs:343-344 | sorted hashes are a permutation in which the first differing byte is lower |
| `Bundles.HashOrderIrrelevant` | crates/rbuilder-primitives/src/serialize.rs:343-344 | permuting the raw hash lists changes neither the decoded bundle nor its uuid |
| `Bundles.MovingAHashChangesPreimage` | crates/rbuilder-primitives/src/lib.rs:344-347 | moving a hash from one list to the other always changes the version 2 preimage |
| `Bundles.EncodeThenDecodeTxs` | crates/rbuilder-primitives/src/serialize.rs:404-408 | encoded transactions decode to themselves, in sequence, when the codec round-trips on them |
| `Bundles.DecodeInner` | crates/rbuilder-primitives/src/serialize.rs:326-391 | every outcome with its exact condition in terms of the raw fields: each error in its precedence, the cancellation, and all fields of a decoded bundle, with the default recipient and transaction of the refund, the sorted lists, the hash and the uuid buffer with its defaults written out |
| `Bundles.DecodeAll` | crates/rbuilder-primitives/src/serialize.rs:346-359 | all transactions decoded one for one, or the first that fails |
| `Bundles.TakeRefund` | crates/rbuilder-primitives/src/serialize.rs:446-485 | no refund exactly for no percentage or zero, otherwise with the given recipient or the first signer and the given hash or that of the last transaction; the condition of each error; a percentage of zero is cleared |
| `Sorting.SortSorted` | crates/rbuilder-primitives/src/serialize.rs:343-344 | sorting gives a sorted permutation |
| `Sorting.SortedUnique` | crates/rbuilder-primitives/src/serialize.rs:343-344 | under a total order the sorted list is determined by its elements |
| `Sorting.SortStable` | crates/rbuilder/src/backtest/full_slot_block_data.rs:71 | elements that rank alike keep their sequence |
| `Sorting.SortPlaces` | crates/rbuilder/src/backtest/mod.rs:138-142 | every element of the sorted list has its own place in the list, and elements that rank alike stand as they did |
| `OrderReplacement.OrderReplacementManager.constructor` | crates/rbuilder/src/live_builder/order_input/order_replacement_manager.rs:22-29 | no live orders and no decisions |
| `OrderReplacement.OrderReplacementManager.InsertOrder` | crates/rbuilder/src/live_builder/order_input/order_replacement_manager.rs:35-54 | an order is stored unless its key was decided with the same or a higher number; the order decided before is removed first |
| `OrderReplacement.OrderReplacementManager.RemoveBundle` | crates/rbuilder/src/live_builder/order_input/order_replacement_manager.rs:56-72 | a cancellation decides its key unless it was decided with the same or a higher number |
| `OrderReplacement.OrderReplacementManager.RemoveShareBundle` | crates/rbuilder/src/live_builder/order_input/order_replacement_manager.rs:74-88 | cancelling a share bundle has the highest possible number |
| `OrderReplacement.OrderReplacementManager.Cancel` | crates/rbuilder/src/live_builder/order_input/order_replacement_manager.rs:147-154 | ignored, or the decided order is removed and the key cancelled |
| `OrderReplacement.OrderReplacementManager.RemoveDecided` | crates/rbuilder/src/live_builder/order_input/order_replacement_manager.rs:157-162 | removes the order decided for the key, if it was decided by an order |
| `OrderReplacement.ReplayConsistent` | crates/rbuilder/src/live_builder/order_input/order_replacement_manager.rs:9-15 | after any commands whatever, a live order with a key is the one decided for it, so no two live orders share a key |
| `OrderReplacement.DecisionIsLatest` | crates/rbuilder/src/live_builder/order_input/order_replacement_manager.rs:12-13 | the decision for a key is that of its first command with the highest number |
| `OrderReplacement.LiveIsLatest` | crates/rbuilder/src/live_builder/order_input/order_replacement_manager.rs:12-13 | no order and no cancellation with a higher number than that of a live order arrived for its key; a cancelled share bundle leaves only an order with the highest number there is |
| `OrderReplacement.BackedUnlessOverwritten` | crates/rbuilder/src/live_builder/order_input/order_replacement_manager.rs:95-101 | a command keeps every decided order live exactly when it does not store an order under the id of a live order with another key |
| `OrderReplacement.SharedIdLosesOrder` | crates/rbuilder/src/live_builder/order_input/order_sink.rs:119-132 | two keys whose orders have one id: cancelling the first takes the order of the second away |
| `OrderReplacement.BackedThroughoutRun` | crates/rbuilder/src/live_builder/order_input/order_replacement_manager.rs:95-101 | decided orders are live throughout a run exactly when no command of it stores an order under the id of a live order with another key |
| `OrderReplacement.ReplayBacked` | crates/rbuilder/src/live_builder/order_input/order_replacement_manager.rs:95-101 | so they are when the orders with one id have one key |
| `OrderReplacement.LiveOrdersArrived` | crates/rbuilder/src/live_builder/order_input/order_sink.rs:119-132 | live orders come from the commands |
| `OrderReplacement.LiveExactly` | crates/rbuilder/src/live_builder/order_input/order_replacement_manager.rs:35-88 | after any commands an order is live exactly when some command stored it and no later one stored another under its id or superseded a decision for that id |
| `OrderReplacement.UnkeyedStay` | crates/rbuilder/src/live_builder/order_input/order_replacement_manager.rs:51-53 | an order without a key stays live unless one with a key has its id |
| `OrderReplacement.LiveIds` | crates/rbuilder/src/live_builder/order_input/order_replacement_manager.rs:35-88 | an id is live only if it is that of an unkeyed order or decided for a key, and then it is live unless orders of different keys have it |
| `OrderReplacement.DecidingOrderLive` | crates/rbuilder/src/live_builder/order_input/order_replacement_manager.rs:139-142 | the order that decides a key is live as it arrived unless one with another key has its id; `LiveInAnySequence` is exact |
| `OrderReplacement.ArrivalSequenceIrrelevant` | crates/rbuilder/src/live_builder/order_input/order_replacement_manager.rs:12-13 | notifications that arrive in another sequence give the same decisions and the same live orders, when no final order is disputed |
| `OrderReplacement.LiveInAnySequence` | crates/rbuilder/src/live_builder/order_input/order_replacement_manager.rs:12-13 | a final order (unkeyed, or with the highest number of its key) is live in every sequence of arrival exactly when no order of another key has its id and no other final command competes with it |
| `OrderReplacement.ArrivalSequenceExact` | crates/rbuilder/src/live_builder/order_input/order_replacement_manager.rs:12-13 | for any commands: the sequence of arrival is irrelevant exactly when no final order is disputed |
| `OrderReplacement.TieShows` | crates/rbuilder/src/live_builder/order_input/order_replacement_manager.rs:131-133 | for any two commands that tie for the highest number of a key there are two sequences of the same commands with different outcomes |
| `Backtest.BlockData.FilterByEndTimestamp` | crates/rbuilder/src/backtest/mod.rs:110-165 | what is left, by place: the landed orders and those on time that no order left with their key comes before, sorted latest first, by id and then as they stood; dropped ids are recorded with their reason over earlier records |
| `Backtest.BlockData.RetainOnTime` | crates/rbuilder/src/backtest/mod.rs:120-133 | the landed and timely orders at their places in sequence, and the others recorded as late |
| `Backtest.BlockData.RetainUnreplaced` | crates/rbuilder/src/backtest/mod.rs:144-164 | the landed orders and those without an order of their key kept ahead, at their places in sequence, and the others recorded as replaced |
| `Backtest.SurvivorsOnTime` | crates/rbuilder/src/backtest/mod.rs:110-165 | candidates are exactly the landed and timely orders, latest first and by id; an order is left exactly when a copy of it survives among them |
| `Backtest.LandedSurvive` | crates/rbuilder/src/backtest/mod.rs:111-124 | landed orders keep all their copies |
| `Backtest.OneCopyPerKey` | crates/rbuilder/src/backtest/mod.rs:135-164 | of two survivors with one key the later in the list landed |
| `Backtest.LosesCopyWhen` | crates/rbuilder/src/backtest/mod.rs:120-164 | an order loses a copy exactly when a copy is late or replaced |
| `Backtest.RecordedAreDropped` | crates/rbuilder/src/backtest/mod.rs:129-158 | the recorded ids are the old ones and exactly those of orders that lost a copy |
| `Backtest.RecordIds` | crates/rbuilder/src/backtest/mod.rs:129-158 | a recorded id has the reason it was dropped for, over what was recorded before |
| `Backtest.FullSlotBlockData.constructor` | crates/rbuilder/src/backtest/full_slot_block_data.rs:64-79 | the commands sorted by time, a permutation, stable |
| `Backtest.FullSlotBlockData.Snapshot` | crates/rbuilder/src/backtest/full_slot_block_data.rs:154-199 | the live orders after the commands up to the cutoff, each once, with the time of its latest command; no lookup of a time fails |
| `Backtest.TimesAreLatest` | crates/rbuilder/src/backtest/full_slot_block_data.rs:160-169 | the recorded time of an order is that of its latest command |
| `Backtest.TimesCover` | crates/rbuilder/src/backtest/full_slot_block_data.rs:185-186 | every live order has a recorded time |
| `Backtest.List` | crates/rbuilder/src/backtest/full_slot_block_data.rs:181-189 | every live order once, in any sequence |
| `Backtest.FullSlotBlockData.SnapshotIncludingLanded` | crates/rbuilder/src/backtest/full_slot_block_data.rs:101-149 | succeeds exactly when every landed id has an order command; the result is the snapshot orders that neither landed nor have the key of a landed one, as they stood, followed by the first order command of each landed id in command sequence; without a landed block it is the snapshot |
| `Backtest.FullSlotBlockData.Gather` | crates/rbuilder/src/backtest/full_slot_block_data.rs:107-130 | the first order command of each landed id, in command sequence, if every id has one |
| `Backtest.FullSlotBlockData.Retain` | crates/rbuilder/src/backtest/full_slot_block_data.rs:138-145 | the snapshot orders that neither landed nor share a key with a landed one, at their places in sequence |
| `Backtest.FirstOrdersOnce` | crates/rbuilder/src/backtest/full_slot_block_data.rs:111-127 | each landed id is gathered exactly once, as its first command has it |
| `Backtest.LandedSnapshot` | crates/rbuilder/src/backtest/full_slot_block_data.rs:101-149 | each landed order appears exactly once, with its earliest time, and no other order has its key |
| `Backtest.OthersKept` | crates/rbuilder/src/backtest/full_slot_block_data.rs:137-145 | other orders keep their copies unless a landed order has their key |
| `Backtest.OnePerId` | crates/rbuilder/src/backtest/full_slot_block_data.rs:137-146 | no id appears twice |
| `Payout.EstimatePayoutGasLimit` | crates/rbuilder/src/building/payout_tx.rs:151-206 | the one result for each outcome of the trials at the gas left and at the estimate: their errors, the default space for an account without code, the estimate if it suffices, else what the search from it gives: a sufficing limit whose neighbour towards the estimate fails, the error of a limit it tries, or overflow |
| `Payout.Search` | crates/rbuilder/src/building/payout_tx.rs:186-205 | terminates at a sufficing limit next to a failing one, between the two it started from; fails exactly with the error of a limit it tries, and overflows exactly when it gets to two limits whose sum exceeds 64 bits |
| `Payout.OverflowExact` | crates/rbuilder/src/building/payout_tx.rs:191 | no trials make the search between two limits overflow exactly when both are at most 2^63 |
| `Payout.NeverEnds` | crates/rbuilder/src/building/payout_tx.rs:190-205 | without overflow checks there are trials and limits for which the search goes on after any number of turns |
| `Payout.LimitIsLeast` | crates/rbuilder/src/building/payout_tx.rs:189-205 | with monotone trials the limit is the least sufficing one from the estimate on |
| `Relay.PendingSlotData.constructor` | crates/test-relay/src/relay.rs:432-447 | no bids |
| `Relay.PendingSlotData.Check` | crates/test-relay/src/relay.rs:449-467 | accepts exactly the slot and parent at hand; an earlier slot is past, everything else unknown |
| `Relay.PendingSlotData.AddNewSubmission` | crates/test-relay/src/relay.rs:469-562 | a submission for another slot or parent changes nothing; otherwise the stored bids and the best bid are those of a step, and a new bid that is not above the best one leaves it |
| `Relay.Highest` | crates/test-relay/src/relay.rs:530-534 | some stored bid of the highest value, or none when there is none |
| `Relay.NextKeepsBestLive` | crates/test-relay/src/relay.rs:469-535 | a step keeps the best bid among the stored ones and not below the uncancellable one |
| `Relay.RunInvariant` | crates/test-relay/src/relay.rs:469-562 | in every reachable state the best bid is absent exactly when no bid is stored, is a stored bid, and is at least the uncancellable one, which is the first of the highest uncancellable value accepted; the other entries are the last cancellable bids of their builders |
| `Relay.HighestUnlessRaised` | crates/test-relay/src/relay.rs:487-499 | from a state whose best bid is the highest, the next one has that too exactly when no builder raises a bid that was not the best above it |
| `Relay.HighestThroughoutRun` | crates/test-relay/src/relay.rs:420-422 | the best bid is the highest throughout a run exactly when no submission of the run does that |
| `Relay.RaisedBidMissed` | crates/test-relay/src/relay.rs:487-499 | bids of 10 and 5 and the 5 raised to 20: the best bid stays the one of 10 |
| `UsedState.UsedStateTrace.AppendTrace` | crates/rbuilder-primitives/src/evm_inspector.rs:42-77 | the trace becomes its merge with the other: first reads and last writes, amounts added, contracts appended |
| `UsedState.InsertMissing` | crates/rbuilder-primitives/src/evm_inspector.rs:43-48 | values that are there already stay |
| `UsedState.AddAmounts` | crates/rbuilder-primitives/src/evm_inspector.rs:60-66 | amounts are added modulo 2^256, starting from zero where there is none |
| `UsedState.PushMissing` | crates/rbuilder-primitives/src/evm_inspector.rs:71-76 | addresses that are not there yet, in sequence |
| `UsedState.AppendAssociative` | crates/rbuilder-primitives/src/evm_inspector.rs:42-77 | merging is associative |
| `UsedState.FoldSplit` | crates/rbuilder-primitives/src/evm_inspector.rs:42-77 | merging the merges of two parts of a list merges the list |
| `UsedState.FoldReads` | crates/rbuilder-primitives/src/evm_inspector.rs:26-27 | after any list a slot has the value of its first read, and only slots that were read have one |
| `UsedState.FoldWrites` | crates/rbuilder-primitives/src/evm_inspector.rs:28-29 | after any list a slot has the value of its last write, and only slots that were written have one |
| `UsedState.FoldBalances` | crates/rbuilder-primitives/src/evm_inspector.rs:30-31 | after any list a balance has the value of its first read |
| `UsedState.FoldAmounts` | crates/rbuilder-primitives/src/evm_inspector.rs:32-34 | after any list received and sent amounts are the totals modulo 2^256 |
| `UsedState.FoldContracts` | crates/rbuilder-primitives/src/evm_inspector.rs:68-76 | after any list created contracts are all there as they came, and destructed ones once each by first occurrence |

## Left out

- RootHash.RootHashCalculator.Calculate: says nothing of the state after a call that fails, since an error between applying ops and swapping the logs loses undo records; `AbandonedIsSettled` says exactly when that is harmless for one trie and `GivenUpHalfWay` is an instance where it is not. That the attempts suffice is stated one way: the loading bound of a removal is exact for one removal (`TenRoundsSuffice`), but other operations of the same calculation can load or dissolve branches that it counts.
- RootHash.Replay: the calls after the first failing one are not made.
- Payout.Search: where overflow checks are off the source goes on with the sum modulo 2^64; that form has only the lemma that it need not end.
- Relay.PendingSlotData.AddNewSubmission: does not model the floating-point `advantage` of a bid, which is only reported.
- ConflictSets.GetConflictSets: set numbers are unbounded where the source has 32 bits, so overflow after 2^31 sets is not modelled; the two maps are one value that the loop replaces.
- The arena layout of the in-memory trie (node, key and value vectors, index ranges): the trie is a value whose nodes carry their kept pointers, and stored values are indices into an append-only list.
- Storing and fetching nodes: a fetch makes the nodes on a path available. The first bulk fetch (`do_first_fetch`) and `prefetch_proofs` only fill the store.
- Account proofs (`proof_targets`) and the third loop of the calculation.
- Threads, locks and shared caches: parallel loops are sequential loops in any order; the list of changed accounts is a map from address to status.
- Parallel vectors of keys, values and owners are sequences of records.
- Transaction envelopes, signatures, signer lookup, blobs and JSON: behind the codec parameter. Hash collisions of the uuid are not excluded, only those of its input.
- Bundle metadata that decoding sets to defaults, and the original orders of merged share bundles.
- Finding conflicts by executing pairs of orders (`find_conflict_slow`).
- The snapshot's copies of the block, bid trace and landed block data, and the other backtest filters (mempool, ids, signers).
- The sink behind the replacement manager is its store of orders; failing sinks and liveness of the sink are not modelled.
- Execution of the trial payout: a trial is a function of the gas limit, so that repeated trials agree.
- Bid validation, constraint proofs over `eth_trie`, submissions in SSZ form, bidding services, storage and configuration: input and output, or code of other crates.
