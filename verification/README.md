# Nocostcoin node: a verified model

Nocostcoin is a small proof-of-stake ledger. A node keeps blocks, accounts and indexes in one flat key-value
store, a content-addressed trie over the accounts, registries of assets, collections and payment channels, a
validator set, and a chain that accepts blocks and votes. This project models those parts in Dafny and proves
what they promise, bottom up:

| files | part |
|---|---|
| `Base`, `Text`, `Totals` | machine words, hexadecimal and decimal text, byte order, finite sums |
| `TrieModel`, `TrieCanon`, `TrieContent`, `Trie`, `TriePanic`, `TrieRepaired` | the Merkle Patricia trie: law of insertion, canonical form, agreement with a map, the node store as a class, when an insertion panics, and the trie without its special case |
| `Ledger`, `Effects`, `Supply`, `Holdings` | the eleven transaction kinds as direct execution on accounts; the effect of each on balances, holdings, owners and channels; conservation of coins, assets and items |
| `Keys`, `Storage` | the key builders, and the flat store as a class that refines a record of tables |
| `LedgerState` | the write-back overlay, the registries and the commit as a class that refines direct execution |
| `Validators`, `Merkle`, `Consensus`, `Mempool`, `Admission` | stake, leadership and quorums; the transaction root; block checks and fork choice; transaction selection; admission against execution |
| `Node`, `NodeEffects` | the node as one value and its steps: deliver a block, cast a vote, prune, restart, boot; what the smaller ones do to its fields |
| `Chain` | the chain as a class; each method takes exactly a step of `Node` |
| `Invariants`, `Safety`, `Replay`, `Inflation`, `Overflow`, `Lineage`, `Finality`, `StateRoot`, `Runs` | what steps and whole runs keep |
| `Rollback`, `Witnesses` | exactly when a roll-back breaks an agreement, and blocks that do |

Code that updates fields in place is a class whose methods are proved against functions on values; what the
program promises is then proved about those functions. `Node.Next` is the step relation. `AddBlock`, `AddVote`,
`Prune`, `Boot` and the constructor of the class `Chain.Chain` are proved to take its steps, so every theorem about
runs is about the class.

## How the program is modelled

- A digest is a datatype that holds what was hashed, for trie nodes and for the pairs of the transaction root, so
  that different contents have different digests. The hash of a header, of a transaction and of an identifier are
  parameters (`Consensus.Crypto`) of which nothing is assumed; where a theorem needs block hashes to bind
  headers it says so (`CollisionFree`, `WellHashed`), because `add_block` never recomputes `block.hash`.
- Signatures and VRF proofs are predicates of `Consensus.Crypto`.
- Serialised accounts are an injective function of the account: the trie stores the account itself. The program
  serialises accounts that hold hash maps, whose order is not fixed.
- A `u64` is a natural number below 2^64, and `+` and `-` wrap, as in a release build. Where the program is safe
  only without wrapping, the condition is in the theorem.
- Iteration over a hash map is any order: theorems hold for all of them.
- The two floating-point comparisons (`core/src/chain.rs:317`, `core/src/validator.rs:125-131`) are exact
  comparisons of whole numbers.
- Writes to the database succeed.
- An insertion into the trie that would index out of range is excluded by a precondition (`Fits`, `CanInsertAll`,
  `NeverPanics`). It is proved over the stored keys exactly when that happens (`TriePanic.InsertPanicsIff`), and that
  addresses of one length never do it (`Runs.RunNeverPanics`).

## Where code and intent differ

The code is kept as it is; each difference has an exact condition or an example.

- Trie: a third key that differs only in its last nibble is stored where it is not read
  (`Trie.ThirdSiblingIsNotRead`), the root then depends on the order of insertion (`Trie.SiblingOrderMatters`), and
  an insertion acts as a map update exactly under the condition of `TrieContent.InsertActsAsMapIff`. One special case
  is the whole cause: without it the trie is a map for all keys of one length (`TrieRepaired.RepairedIsMap`). Keys of which
  one starts with the other are lost or dropped (`Trie.LongerKeyDisplaces`, `Trie.ShorterKeyIsDropped`) or index out
  of range (`TriePanic.InsertPanicsIff`, `TriePanic.PrefixKeyPanics`).
- Roll-back restores the accounts but not the registries. A refused block creates wealth exactly when its executed
  transactions opened channels with more than they closed (`Inflation.RefusedCreatesWealthIff`,
  `Witnesses.RefusedBlockCreatesWealth`); it leaves an asset nobody holds exactly when they created one
  (`Rollback.RolledBackAssetsIff`, `Witnesses.RefusedBlockLeavesAsset`); and owners and listings of items come apart
  exactly when they minted an item or moved one that did not come back (`Rollback.RolledBackItemsIff`,
  `Witnesses.RefusedBlockDoublesItem`).
- Headers are recorded and validators slashed before any proof is checked, so that two forged headers slash the
  validator they name (`Safety.DeliverySlashesIff`, `Witnesses.ForgedHeadersSlash`).
- The sum of final balances that `close_channel` compares with the deposit wraps
  (`Supply.WrappingCloseCreatesCoins`); `Supply.CloseConservesIff` is the exact condition.
- The refund of an unregistered validator is put into the overlay after the commit and is discarded by the next
  block (`Inflation.RefundIsNeverStored`). A refused registration keeps the deduction. `Inflation.AcceptedWealth`
  accounts for both.
- The state root in a header is compared with the trie before the transactions of the block, not after
  (`Invariants.AcceptedIff`).
- The comment of `get_transactions_for_block` promises an order that can be executed; it is one exactly when the pool
  has no gap and no duplicate nonce (`Mempool.OrderedIffGapFree`).
- The comment of `prune_blocks_before` speaks of heights from 0; the loop starts at 1, and the entry of the head is
  removed from the height index even though its block stays (`Storage.Store.PruneBlocksBefore`).

## Model

| member | source | states |
|---|---|---|
| `TrieModel.ReadAfterInsert` | core/src/trie.rs:72-183 | the law of insertion on every trie, key and read: afterwards a path reads the new value, its old value or nothing, as the place where the insertion lands decides |
| `TrieModel.ReadSplitLeaf` | core/src/trie.rs:186-243 | splitting a leaf keeps the old pair readable unless its key starts the new one, and makes the new one readable unless it starts the old |
| `TrieModel.ReadSplitExtension` | core/src/trie.rs:245-293 | splitting an extension keeps every read below it and adds the new key |
| `TrieCanon.FitsCanonical` | core/src/trie.rs:72-149 | keys of the common length never index out of range |
| `TrieCanon.InsertCanonicalIn` | core/src/trie.rs:72-293 | insertion keeps the canonical shape: no empty extension, no extension above an extension, no branch with fewer than two children |
| `TrieCanon.UniqueRoot` | core/src/trie.rs:57-59 | two canonical tries have the same root exactly when they answer every read alike |
| `TrieContent.InsertRepresents` | core/src/trie.rs:44-149 | one insertion takes the canonical trie of a content to the canonical trie of the updated content, including what spills into value slots of branches |
| `TrieContent.RootIffContent` | core/src/trie.rs:57-59 | equal roots if and only if equal contents |
| `TrieContent.InsertActsAsMapIff` | core/src/trie.rs:108-113 | an insertion acts on all reads as a map update exactly when fewer than two keys that share all but the last nibble with it, itself included, are stored, or the key already reads as the value |
| `TrieContent.SameRootIffSameContent` | core/src/trie.rs:44-149 | any two sequences of insertions of keys of one length reach the same root if and only if they leave the same content |
| `TrieContent.ReadsAreContent` | core/src/trie.rs:51-55 | after any insertions of keys of one length every read is the lookup in their content |
| `TrieContent.TrieIsMap` | core/src/trie.rs:44-183 | over keys of one length, no two of which differ only in the last nibble, every read is the map lookup after any insertions and overwrites |
| `TrieContent.RootIsOfTheMap` | core/src/trie.rs:44-149 | over such keys the root depends on the final map only: insertion order does not matter, and equal roots mean equal maps |
| `TrieContent.ReadsWereInserted` | core/src/trie.rs:44-183 | over keys of any lengths, a read only returns a value inserted under exactly that key |
| `TrieContent.ReadsBackIff` | core/src/trie.rs:44-54 | the value just inserted reads back exactly when the insertion neither spilled nor was dropped, or the key read as it before |
| `Trie.MerklePatriciaTrie.Insert` | core/src/trie.rs:44-49 | the root becomes the model's, the node store only grows and stays closed, and every digest of the old store reads every path as it did |
| `Trie.MerklePatriciaTrie.Get` | core/src/trie.rs:51-55 | a read is the model's lookup |
| `Trie.MerklePatriciaTrie.ToNibbles` | core/src/trie.rs:62-69 | the loop computes the nibbles of a key |
| `Trie.MerklePatriciaTrie.InsertAt` | core/src/trie.rs:72-149 | the recursive insertion over the node store is the model's, and terminates; the lookup of a child digest never misses |
| `Trie.MerklePatriciaTrie.SplitLeafNode` | core/src/trie.rs:186-243 | splitting a leaf stores the nodes of the model's split |
| `Trie.MerklePatriciaTrie.SplitExtensionNode` | core/src/trie.rs:245-293 | splitting an extension stores the nodes of the model's split |
| `Trie.MerklePatriciaTrie.GetAt` | core/src/trie.rs:153-183 | a read through the store is a read of the digest's content |
| `Trie.ThirdSiblingIsNotRead` | core/src/trie.rs:108-113 | of three keys differing only in the last nibble the third is not read back |
| `Trie.SiblingOrderMatters` | core/src/trie.rs:108-113 | two orders of inserting such keys describe the same map and reach different roots |
| `Trie.LongerKeyDisplaces` | core/src/trie.rs:186-243 | a stored key is lost when a longer key that starts with it is inserted |
| `Trie.ShorterKeyIsDropped` | core/src/trie.rs:209-216 | a key is dropped when a longer key that starts with it is stored |
| `TriePanic.PanicsIffInside` | core/src/trie.rs:122-138 | in a canonical trie an insertion along a path indexes out of range exactly when the path ends strictly inside the common continuation of at least two stored keys |
| `TriePanic.InsertPanicsIff` | core/src/trie.rs:122-138 | over stored keys of one length: a key indexes out of range exactly when two stored keys start with it, all stored keys that go on after it share the next nibble, and no stored key starts with a sibling of it |
| `TriePanic.PrefixKeyPanics` | core/src/trie.rs:245-270 | after two keys of two bytes that differ only in the last nibble, inserting their first byte indexes out of range |
| `TriePanic.PrefixKeyPanicsHere` | core/src/trie.rs:245-270 | the instance with keys 0x1234 and 0x1235 |
| `TrieRepaired.RepairedAgrees` | core/src/trie.rs:104-122 | where the program does not use a branch's own value, leaving out the special case changes nothing |
| `TrieRepaired.RepairedIsMap` | core/src/trie.rs:108-113 | without the special case, for all keys of one length, every read is the map lookup and equal roots mean equal maps |
| `Ledger.ExecuteFrame` | core/src/state.rs:132-190 | a transaction changes no nonce before the final increment, and only the part of an account its kind is about |
| `Ledger.ApplyNonce` | core/src/state.rs:132-190 | the sender's nonce moves by one exactly on success, no other nonce moves, and the nonce error is raised exactly when the nonces differ |
| `Effects.ValidLogicIff` | core/src/transaction.rs:221-303 | a transaction is well formed exactly when its needed texts are not empty, its needed numbers are not zero and a native transfer is not to oneself |
| `Effects.NativeTransferEffect` | core/src/state.rs:192-212 | succeeds exactly when due, to somebody else and covered; the sender has the amount less, the receiver the amount more, nobody else changes; a failure changes nothing |
| `Effects.CreateAssetEffect` | core/src/state.rs:214-240 | succeeds exactly when the identifier is free; the asset is registered to the sender, who holds the whole supply |
| `Effects.TransferAssetEffect` | core/src/state.rs:242-263 | succeeds exactly when the asset is registered and the holding covers it; the amount moves from sender to receiver, and to oneself nothing moves |
| `Effects.CreateCollectionEffect` | core/src/state.rs:265-283 | succeeds exactly when the identifier is free; the collection has the sender as issuer and no items |
| `Effects.MintEffect` | core/src/state.rs:285-312 | succeeds exactly for the issuer and a free item; the recipient owns it and lists it once more |
| `Effects.TransferNftEffect` | core/src/state.rs:314-339 | succeeds exactly for the owner with an account; the receiver owns the item and lists it once more, the sender lists it no more; without an account the registry has changed all the same |
| `Effects.OpenChannelEffect` | core/src/state.rs:341-369 | succeeds exactly when the deposit is covered and the identifier free; the deposit moves into an open channel, and is gone when only the identifier is taken |
| `Effects.CloseChannelEffect` | core/src/state.rs:371-406 | succeeds exactly for a partner, an open channel and final balances that sum to the deposit in 64 bits; both are paid, and a wrong sum closes the channel without paying |
| `Effects.DelegateSpendEffect` | core/src/state.rs:408-416 | sets the allowance of one delegate and no other |
| `Effects.RegisterValidatorEffect` | core/src/state.rs:167-176 | succeeds exactly when the stake is covered and takes it from the sender |
| `Effects.UnregisterValidatorEffect` | core/src/state.rs:177-184 | succeeds exactly when the sender has an account and pays nothing |
| `Supply.TransferKeepsCoins` | core/src/state.rs:192-212 | a native transfer keeps the sum of all balances |
| `Supply.CloseEquation` | core/src/state.rs:371-406 | the exact effect of a successful close on balances and open deposits, wrapping included |
| `Supply.CloseConservesIff` | core/src/state.rs:391-404 | a close conserves coins exactly when the sum of the final balances wraps as often as the payouts do |
| `Supply.WrappingCloseCreatesCoins` | core/src/state.rs:391-393 | a wrapping sum passes the deposit check and creates 2^64 coins |
| `Supply.NoBalanceWraps` | core/src/state.rs:192-212 | for one transaction: while everything fits 64 bits, no addition to a balance wraps |
| `Supply.ApplyConserves` | core/src/state.rs:132-190 | a successful transaction changes balances plus open deposits by exactly the stake it registers; a failed one creates nothing |
| `Holdings.ApplyKeepsAssets` | core/src/state.rs:214-263 | each asset's holdings keep summing to its supply, whether the transaction succeeds or fails |
| `Holdings.ApplyKeepsAssetsOrGone` | core/src/state.rs:214-263 | with roll-backs the sum is the supply or nothing |
| `Holdings.ApplyKeepsItems` | core/src/state.rs:265-339 | the registered owner of an item is the only account listing it, and lists it once, whether the transaction succeeds or fails |
| `Holdings.MoveNftFailsClean` | core/src/state.rs:314-339 | while owners and listings agree, an item transfer cannot fail after it changed the registry |
| `LedgerState.State.constructor` | core/src/state.rs:84-104 | the rebuilt trie is reached from the empty one by inserting every stored account once |
| `LedgerState.State.GetAccount` | core/src/state.rs:106-111 | a read sees the overlay over the store |
| `LedgerState.State.SetBalance` | core/src/state.rs:125-129 | only the balance of the account changes, and only in the overlay |
| `LedgerState.State.TransferNative` | core/src/state.rs:192-212 | refines the direct native transfer, errors included: the amount leaves the sender and reaches the receiver |
| `LedgerState.State.CreateAsset` | core/src/state.rs:214-240 | refines the direct creation of an asset |
| `LedgerState.State.TransferAsset` | core/src/state.rs:242-263 | refines the direct asset transfer, self-transfer included |
| `LedgerState.State.CreateCollection` | core/src/state.rs:265-283 | refines the direct creation of a collection |
| `LedgerState.State.MintNft` | core/src/state.rs:285-312 | refines direct minting |
| `LedgerState.State.TransferNft` | core/src/state.rs:314-339 | refines the direct item transfer, including the registry change that survives a later failure |
| `LedgerState.State.OpenChannel` | core/src/state.rs:341-369 | refines the direct opening, including the deduction that survives a collision of identifiers |
| `LedgerState.State.CloseChannel` | core/src/state.rs:371-406 | refines the direct close, including the mark that survives a mismatch |
| `LedgerState.State.DelegateSpend` | core/src/state.rs:408-416 | refines direct delegation |
| `LedgerState.State.ApplyTransaction` | core/src/state.rs:132-190 | readers see exactly the outcome of direct execution, the store is untouched, and a success writes exactly the accounts the transaction names |
| `LedgerState.State.DiscardChanges` | core/src/state.rs:440-442 | readers see the stored accounts again; the registries stay as they are |
| `LedgerState.State.ApplyChanges` | core/src/state.rs:426-438 | in any order of the overlay, the store ends with what readers saw and the trie with the overlay inserted, each account once |
| `LedgerState.UniformNeverPanics` | core/src/state.rs:426-438 | with addresses of one length no commit indexes out of range, in any order |
| `Keys.EncodeTable` | core/src/storage.rs:26-415 | the tables of the flat store are disjoint |
| `Keys.EncodeInjective` | core/src/storage.rs:26-415 | the key builders are injective, within a table and across tables |
| `Storage.PutRefines` | core/src/storage.rs:26-131 | writing one key changes one table entry and nothing else |
| `Storage.Store.StoreBlock` | core/src/storage.rs:26-37 | one block entry changes |
| `Storage.Store.GetBlock` | core/src/storage.rs:39-53 | a read is the table lookup |
| `Storage.Store.StoreBlockByHeight` | core/src/storage.rs:56-63 | one height entry changes |
| `Storage.Store.GetBlockByHeight` | core/src/storage.rs:65-79 | a read is the table lookup |
| `Storage.Store.StoreHead` | core/src/storage.rs:82-88 | the head entry changes |
| `Storage.Store.GetHead` | core/src/storage.rs:90-103 | a read is the head entry |
| `Storage.Store.StoreAccount` | core/src/storage.rs:106-117 | one account changes and no table does |
| `Storage.Store.GetAccount` | core/src/storage.rs:119-133 | a read is the account lookup |
| `Storage.Store.GetAllAccounts` | core/src/storage.rs:136-161 | the sorted scan from the prefix returns every account exactly once, in ascending order of address |
| `Storage.Store.DeleteBlock` | core/src/storage.rs:175-182 | one block entry goes |
| `Storage.Store.PruneBlocksBefore` | core/src/storage.rs:187-221 | removes exactly the indexed heights in [1, target) and the blocks they point to except the head, and returns the number of those heights |
| `Storage.Store.StoreSeenHeader` | core/src/storage.rs:225-232 | one header entry changes |
| `Storage.Store.GetSeenHeader` | core/src/storage.rs:234-240 | a read is the table lookup |
| `Storage.Store.StoreVote` | core/src/storage.rs:244-253 | one vote entry changes |
| `Storage.Store.StoreTransactionIndex` | core/src/storage.rs:336-343 | one index entry changes |
| `Storage.Store.GetTransactionBlock` | core/src/storage.rs:345-357 | a read is the table lookup |
| `Storage.Store.AddTransactionToAddress` | core/src/storage.rs:360-384 | the item and the count together append to the log of the address |
| `Storage.Store.GetAddressHistory` | core/src/storage.rs:387-414 | the last `limit` entries of the log, newest first |
| `Validators.ValidatorSet.RegisterValidator` | core/src/validator.rs:40-55 | refused below the minimum stake or when registered; otherwise the stake joins the total |
| `Validators.ValidatorSet.UnregisterValidator` | core/src/validator.rs:58-65 | removes the validator, returns its stake and takes it out of the total |
| `Validators.ValidatorSet.SlashValidator` | core/src/validator.rs:67-85 | marks the validator, removes its stake from the total, and does so once |
| `Validators.RegisterSound` | core/src/validator.rs:40-55 | the running total stays the sum of the stakes |
| `Validators.UnregisterSound` | core/src/validator.rs:58-65 | the running total stays the sum of the stakes, whatever it wrapped to |
| `Validators.SlashSound` | core/src/validator.rs:67-85 | the running total stays the sum of the stakes, and the validator is marked |
| `Validators.NoStakeUnderflows` | core/src/validator.rs:58-85 | while stakes fit 64 bits the total is exact and no subtraction from it underflows |
| `Validators.SlashedNeverLeads` | core/src/validator.rs:113-132 | a slashed validator leads no slot |
| `Validators.LeadershipGrowsWithStake` | core/src/validator.rs:113-150 | more stake wins every slot less stake wins, an empty output wins none, the whole stake wins on every output but the greatest |
| `Validators.OnlyRegisteredLead` | core/src/validator.rs:113-121 | whoever leads is registered, and while the total is exact has an output that is not empty |
| `Validators.LittleEndianDigit` | core/src/validator.rs:141-145 | the number read from an output has the output's bytes as its digits, the first byte least significant, and zeros past the end |
| `Validators.LeadsOnItsShare` | core/src/validator.rs:113-150 | with any output a registered validator leads exactly when the number read from it is among the first values of its share of the stake, rounded up |
| `Validators.VoteStakeIsTotal` | core/src/chain.rs:306-314 | the loop sums the stake of the set of voters |
| `Validators.VoteStakeWithinTotal` | core/src/chain.rs:306-314 | recorded stake never exceeds the total |
| `Validators.QuorumsIntersect` | core/src/chain.rs:305-326 | if two blocks pass the threshold under one validator set, more than 0.3332 of the stake voted for both |
| `Validators.ValidatorSet.SumVotes` | core/src/chain.rs:307-314 | the loop computes the recorded stake |
| `Merkle.CalculateMerkleRoot` | core/src/block.rs:41-66 | the level-by-level loop terminates with the root of the levels |
| `Merkle.NextLevel` | core/src/block.rs:49-62 | the inner loop over pairs computes the next level |
| `Merkle.RootIsTree` | core/src/block.rs:41-66 | the loop computes the balanced tree split from the top, the last leaf repeated where one is missing |
| `Merkle.MerkleRootBinds` | core/src/block.rs:41-66 | two lists of equal length with the same root are equal |
| `Merkle.OddListsCollide` | core/src/block.rs:49-62 | a list of odd length from three on shares its root with the list that repeats its last element |
| `Consensus.NewBlock` | core/src/block.rs:28-39 | the root of the transactions is in the header before the header is hashed |
| `Consensus.TxRootBinds` | core/src/consensus.rs:88-92 | two valid blocks with one transaction root and equally many transactions carry the same transaction hashes |
| `Consensus.BetterIsStrictOrder` | core/src/consensus.rs:35-48 | fork choice is a strict order that leaves only equal slot and VRF output incomparable and never prefers a smaller slot |
| `Consensus.BetterIff` | core/src/consensus.rs:35-48 | the greater slot wins, and on equal slots the VRF output that is a proper prefix or smaller at the first difference |
| `Mempool.Pool.AddTransaction` | core/src/mempool.rs:22-83 | a transaction is pooled under its signature exactly when there is room, it is well formed, signed and funded, and its nonce is not below the state nonce |
| `Mempool.AdmittedIff` | core/src/mempool.rs:22-83 | each refusal names a check that fails, in order |
| `Admission.ExecutableIsAdmitted` | core/src/mempool.rs:22-83 | whatever can be executed now is admitted while there is room |
| `Admission.AdmittedSucceedsIff` | core/src/mempool.rs:31-73 | of the admitted transactions that are due, exactly those succeed that lack nothing the pool does not check; native transfers always do |
| `Admission.StaleStaysStale` | core/src/mempool.rs:67-73 | a transaction refused for its nonce never becomes admissible or executable again while nonces do not wrap |
| `Mempool.Pool.GetTransactionsForBlock` | core/src/mempool.rs:87-96 | some iteration of the pool, sorted by nonce and cut at the limit |
| `Mempool.Pool.RemoveTransactions` | core/src/mempool.rs:99-103 | exactly the given signatures leave the pool |
| `Mempool.OrderedIffGapFree` | core/src/mempool.rs:87-96 | the sorted pool can be executed in order if and only if each sender's nonces are distinct, gap-free and start at its state nonce |
| `Mempool.SelectionPassesNonces` | core/src/mempool.rs:87-96 | for every limit a selection from a gap-free pool passes every nonce check when executed in order |
| `Chain.Chain.constructor` | core/src/chain.rs:31-54 | opening the chain on a disk is a restart step, with the trie rebuilt from the stored accounts |
| `Chain.Chain.ProcessTransaction` | core/src/chain.rs:214-222 | validation, then execution on the overlay |
| `Chain.Chain.ExecuteTransactions` | core/src/chain.rs:109-114 | the loop executes up to the first failure and, on success, has touched exactly the accounts the transactions name |
| `Chain.Chain.CheckEquivocation` | core/src/chain.rs:67-98 | a header is recorded in memory and on disk when none is known, and a second one slashes its validator |
| `Chain.Chain.ExecuteBlock` | core/src/chain.rs:107-126 | execution and the state-root check, rolled back on failure |
| `Chain.Chain.AddBlock` | core/src/chain.rs:56-211 | takes exactly the step of the model and gives exactly its verdict |
| `Chain.Chain.CommitBlock` | core/src/chain.rs:128-153 | head, block, accounts, trie and height of an accepted block |
| `Chain.Chain.IndexTransactions` | core/src/chain.rs:155-203 | registrations, refunds and indexes of an accepted block |
| `Chain.Chain.GetHead` | core/src/chain.rs:224-226 | the head block is always found |
| `Chain.Chain.AddVote` | core/src/chain.rs:265-303 | takes exactly the voting step of the model; accepted exactly when the validator is registered, the vote is signed and none of its votes for the block is recorded |
| `Chain.Chain.CheckFinality` | core/src/chain.rs:305-326 | the finalized head moves exactly on a quorum |
| `Chain.Chain.Prune` | core/src/node.rs:486-497 | takes exactly the pruning step |
| `Chain.Chain.Boot` | core/src/node.rs:182-215 | takes exactly the start-up step: unfunded configured validators are funded and registered, then all is committed |
| `Invariants.AcceptedIff` | core/src/chain.rs:56-127 | the exact condition under which a block is accepted |
| `Invariants.BlockAtomicity` | core/src/chain.rs:56-202 | a refused block leaves accounts, trie, head, blocks, heights and the transaction indexes unchanged; an accepted one stores exactly the accounts that executing its transactions on the stored ones gives |
| `Invariants.NextKeepsHead` | core/src/chain.rs:129-142 | the head stays stored, through blocks, votes, pruning, restarts and start-up |
| `Invariants.NextKeepsSeen` | core/src/chain.rs:67-98 | the headers in memory agree with the disk after every step, and a recorded header is never overwritten |
| `Safety.NoEquivocation` | core/src/chain.rs:67-98 | over any run, restarts included, two accepted blocks of one validator for one slot have the same hash |
| `Safety.EquivocationSlashes` | core/src/chain.rs:72-90 | a second block for a slot is refused and slashes its validator |
| `Safety.DeliverySlashesIff` | core/src/chain.rs:56-98 | a delivery slashes a validator exactly when the parent is known and another header of it is recorded for the slot, whatever the proofs say |
| `Safety.NextKeepsSound` | core/src/validator.rs:40-85 | every step keeps the running total the sum of the stakes |
| `Safety.SlashedStaysOut` | core/src/chain.rs:67-105 | every later block of a slashed validator is refused until a restart or an accepted block in which it unregisters |
| `Replay.ConsecutiveNonces` | core/src/chain.rs:107-148 | over any run each executed transaction carries its sender's initial nonce advanced by the number of its earlier executed transactions |
| `Replay.NoReplay` | core/src/state.rs:132-190 | no sender's nonce is executed twice within 2^64 transactions |
| `Replay.RunExecutesSigned` | core/src/chain.rs:214-222 | every transaction a run executes for good is well formed and signed |
| `Inflation.ExecuteAllEscrow` | core/src/state.rs:341-406 | over any list of transactions, successful or not, open deposits change by exactly what the successful openings add and the marked closes remove |
| `Inflation.AcceptedWealth` | core/src/chain.rs:155-183 | the exact account of an accepted block: wealth loses the stakes of refused registrations and of unregistered validators, and nothing else |
| `Inflation.RolledBackWealth` | core/src/state.rs:440-442 | the exact account of a block refused after execution: wealth gains the openings and loses the closes |
| `Inflation.RefusedCreatesWealthIff` | core/src/chain.rs:107-126 | a refused block creates wealth exactly when its transactions were executed and opened channels with more than they closed |
| `Inflation.RefundIsNeverStored` | core/src/chain.rs:170-178 | whatever the overlay holds when a block arrives, the verdict and the accounts stored afterwards are the same |
| `Inflation.NextWealth` | core/src/chain.rs:107-183 | no step but start-up raises balances plus open deposits plus stakes, unless an accepted close wraps or a refused block executed openings of more than it closed |
| `Inflation.NoInflation` | core/src/chain.rs:107-183 | over any run of such steps wealth never exceeds the initial wealth plus what start-up hands out, and the running stake total stays exact |
| `Inflation.NothingOpened` | core/src/state.rs:341-369 | a refused block whose executed transactions open no channel satisfies the condition of the two rows above |
| `Overflow.ExecutionNeverWraps` | core/src/chain.rs:107-114 | over any list of transactions with checked closes, no executed transfer or payout wraps a balance |
| `Overflow.IndexNeverWraps` | core/src/chain.rs:155-183 | through the loop over an accepted block no registration wraps the total stake, no unregistration underflows it and no refund wraps a balance |
| `Overflow.RunNeverWraps` | core/src/chain.rs:56-326 | over any such run, with the sum of executed closes checked, no addition of coins, stakes or recorded votes and no subtraction of stakes wraps, in any step |
| `Lineage.RunKeepsHeights` | core/src/chain.rs:151-153 | every indexed height points to a stored block of that slot, in all runs |
| `Lineage.RunKeepsRooted` | core/src/chain.rs:56-63 | without pruning every stored block but the genesis has a stored parent with a smaller slot |
| `Lineage.PathToGenesis` | core/src/consensus.rs:55-64 | following parents from any stored block reaches the genesis in at most as many steps as its slot |
| `Lineage.NextKeepsBest` | core/src/chain.rs:129-136 | the head only moves to a strictly better block |
| `Lineage.HeadIsBest` | core/src/chain.rs:129-136 | no accepted block is better than the head |
| `Lineage.HeadHasGreatestSlot` | core/src/chain.rs:129-136 | over any run the head has the greatest slot of the accepted blocks, and no VRF output of that slot comes before its own |
| `Lineage.HeadMovesIff` | core/src/chain.rs:129-136 | an accepted block becomes the head exactly when its slot is greater, or equal with a VRF output that comes first |
| `Lineage.SameBlocksSameHead` | core/src/consensus.rs:35-48 | two nodes that accepted the same blocks in any order have the same head, unless two of them tie |
| `Finality.RunKeepsDistinct` | core/src/chain.rs:287-292 | the recorded votes of every block come from distinct validators, in all runs |
| `Finality.VoteVerdict` | core/src/chain.rs:265-303 | a vote is accepted exactly when its validator is registered, it is signed and it is the validator's first for the block; then it is recorded in memory and on disk, and otherwise nothing changes |
| `Finality.FinalizesIff` | core/src/chain.rs:305-326 | an accepted vote finalizes its block exactly when the stake of those who voted for it is more than 0.6666 of the total |
| `Finality.RunKeepsSigned` | core/src/chain.rs:272-298 | in all runs every recorded vote is signed and recorded under its own block |
| `Finality.FinalizingNeedsQuorum` | core/src/chain.rs:305-326 | the finalized head changes only by a signed vote for it that completes a quorum, or a restart |
| `Finality.FinalizedBySignedQuorum` | core/src/chain.rs:265-326 | over any run a block is finalized only by signed votes of distinct validators that make a quorum |
| `Finality.ConflictingFinality` | core/src/chain.rs:305-326 | if a run finalizes two blocks under one validator set, more than 0.3332 of the stake voted for both |
| `StateRoot.CommitInAnyOrder` | core/src/state.rs:426-438 | committing an overlay in any order takes the trie of the old accounts to the trie of the new ones |
| `StateRoot.RebuildIsExact` | core/src/state.rs:84-104 | the trie rebuilt at start is the trie the commits maintained |
| `StateRoot.RunKeepsExact` | core/src/state.rs:426-438 | in all runs, restarts included, the trie is that of the stored accounts, for addresses of one length no two of which differ only in the last nibble |
| `StateRoot.RootIffAccounts` | core/src/state.rs:445-447 | two nodes have the same root if and only if they store the same accounts |
| `StateRoot.SameBlockSameAccounts` | core/src/chain.rs:118-126 | two nodes that accept one block with a state root stored the same accounts before it |
| `Runs.FirstStart` | core/src/chain.rs:31-54 | a node started on an empty disk satisfies every invariant and holds no wealth |
| `Runs.RunIsGood` | core/src/chain.rs:56-326 | every node reached from the first start, without pruning or restart, satisfies all invariants at once |
| `Runs.ExecuteAllIff` | core/src/chain.rs:107-114 | a block's transactions execute exactly when each is well formed, signed and succeeds in turn, and then leave what applying them one by one leaves |
| `Runs.ApplyEachKeepsHoldings` | core/src/state.rs:214-339 | over any sequence of transactions, failed ones included, supplies and owners agree with the accounts |
| `Runs.NextKeepsAssets` | core/src/state.rs:214-263 | through blocks accepted and refused an asset's stored holdings sum to its supply or to nothing |
| `Rollback.RolledBackAssetsIff` | core/src/state.rs:440-442 | a block refused after execution keeps supplies and holdings in agreement exactly when it created no asset |
| `Rollback.NextKeepsAssetsIff` | core/src/chain.rs:107-126 | a step of a process breaks that agreement exactly when it delivers a block refused after it created an asset |
| `Rollback.OwnerAfter` | core/src/state.rs:285-339 | the registered owner of an item after a list of transactions is the last receiver the executed ones gave it to |
| `Rollback.RolledBackItemsIff` | core/src/state.rs:440-442 | a block refused after execution keeps owners and listings in agreement exactly when it minted nothing and every moved item came back |
| `Witnesses.RefusedBlockCreatesWealth` | core/src/chain.rs:109-114 | a refused block that creates wealth |
| `Witnesses.RefusedBlockLeavesAsset` | core/src/chain.rs:109-114 | a refused block that leaves an asset nobody holds |
| `Witnesses.RefusedBlockDoublesItem` | core/src/state.rs:314-339 | a refused block after which an item can be passed on by an account that never had it, so that two accounts list it |
| `Witnesses.ForgedHeadersSlash` | core/src/chain.rs:67-98 | two headers with invalid proofs slash the validator they name |
| `Runs.PruneRemovesCounted` | core/src/storage.rs:187-221 | the number pruning returns is the number of blocks it removes, none of them the head and all with slots in the pruned range |
| `NodeEffects.PruneEffect` | core/src/storage.rs:187-221 | exactly the height entries in [1, target) go, and exactly the blocks they point to except the head |
| `NodeEffects.ReopenEffect` | core/src/chain.rs:31-54 | a restart keeps disk and accounts, finalizes the head and forgets the rest |
| `NodeEffects.EndowEffect` | core/src/node.rs:182-215 | start-up gives 1000000 to exactly the configured keys without a balance, and registers the new ones with it |
| `NodeEffects.RegisterEffect` | core/src/validator.rs:40-55 | a new validator with at least 1000 is registered with its stake and epoch; anything else changes nothing |
| `NodeEffects.LeaveOrSlashEffect` | core/src/validator.rs:58-85 | leaving removes one validator and its stake; slashing keeps it, marked and without stake |
| `NodeEffects.RefundEffect` | core/src/chain.rs:170-178 | an unregistration gives the validator its own stake back in the overlay, to nobody else, and not in the store |
| `Runs.RunNeverPanics` | core/src/state.rs:426-438 | in all runs, while addresses have one length, no commit can index out of range |
| `Runs.IndexAllIndexes` | core/src/chain.rs:185-203 | an accepted block appends to each address's log the hashes of the transactions that name it, in order, and points exactly their hashes to itself |

## Left out

- Networking, the HTTP interface, configuration, the event loop, synchronisation, the faucet and wallet sessions: only the order of calls into the chain matters, and the step relation allows every order.
- Cryptography: signatures, VRF proofs and digests are parameters or structural, as described above.
- The encoding of accounts: taken as an injective function of the account; two processes whose hash maps iterate differently could serialise one account in two ways.
- Failures of the database, metrics and logging.
- `get_votes`: the program does not call it, and its prefix has no separator after the hash.
- `get_blocks_range`: it stops at the first empty slot and promises nothing about the chain.
- Floating-point rounding in the quorum and leader thresholds.
- The error texts: errors are the cases of a datatype.
- History counters: a natural number instead of a `u64`.
- Monotonicity of the finalized head: a late quorum on an older block moves it back.
- Validators, assets, collections and channels after a restart: the program keeps them in memory only, and so does the model.
- The branch for a missing child node (`core/src/trie.rs:139-145`): proved unreachable, so it is not written.
- Stable sorting in the mempool: modelled by insertion, which leaves equal nonces in the order they were iterated.
- `Node.Commits`: admits every overlay that accounts for the change of the stored accounts, which is more than the one the program holds; theorems about runs hold for all of them.
- `Replay.NoReplay`: excludes 2^64 transactions between two executions, after which a nonce of 64 bits repeats.
- `Runs.RunIsGood`: leaves out pruning and restarts because ancestry ends at a pruned parent and the registries are lost at a restart; the invariants those steps keep are proved for all runs separately.
