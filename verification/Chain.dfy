/** The chain as the program keeps it: a head, headers and votes in memory, over the store, the ledger and
    the validator set. Its methods take exactly the steps of the node. */
module Chain {
  import opened Base
  import opened TrieModel
  import opened Trie
  import opened Ledger
  import opened Validators
  import opened Consensus
  import opened Node
  import opened Storage
  import opened LedgerState
  import opened Text
  import opened Invariants
  import opened Finality
  import N = Node

  /** The accounts a list of transactions writes while it succeeds. */
  function TouchedAll(c: Crypto, l: Ledger, txs: seq<Transaction>): set<Bytes>
    decreases |txs|
  {
    if txs == [] then {} else Touched(l, txs[0]) + TouchedAll(c, Apply(c.id, l, txs[0]).ledger, txs[1..])
  }

  class Chain {
    const crypto: Crypto
    const storage: Store
    const state: State
    const validators: ValidatorSet
    var head: Bytes
    var seenHeaders: map<(U64, Bytes), Bytes>
    var votes: map<Bytes, seq<Vote>>
    var finalizedHead: Bytes

    ghost predicate Valid()
      reads this, storage, state, state.storage, state.trie, validators
    {
      state.storage == storage && state.Valid() && HeadStored(View())
    }

    ghost function View(): (n: Node)
      reads this, storage, state, state.trie, validators
      ensures n.validators == validators.View() && n.root == state.trie.root && n.accounts == storage.accounts
      ensures n.tables == storage.tables && n.head == head
    {
      Node(storage.tables, storage.accounts, state.pending, state.assets, state.collections, state.channels,
           state.trie.root, validators.View(), seenHeaders, votes, head, finalizedHead)
    }

    /** On a disk that names a stored head, or none, this is a restart. */
    constructor (crypto: Crypto, storage: Store, genesis: Block)
      requires storage.Valid() && NeverPanics(None, storage.accounts.Keys)
      requires storage.tables.head.Some? ==> storage.tables.head.value in storage.tables.blocks
      modifies storage
      ensures Valid() && this.storage == storage && this.crypto == crypto
      ensures fresh(state) && fresh(state.trie) && fresh(validators)
      ensures View() == Restart(old(storage.tables), old(storage.accounts), genesis, state.trie.root)
      ensures Commits(None, map[], storage.accounts, state.trie.root)
    {
      hide Refines, Closed, NeverPanics, Commits;
      var found := storage.GetHead();
      var hash := genesis.hash;
      if found.Some? {
        hash := found.value;
      } else {
        storage.StoreBlock(genesis);
        storage.StoreHead(genesis.hash);
      }
      this.crypto, this.storage := crypto, storage;
      state := new State(storage);
      validators := new ValidatorSet();
      head, seenHeaders, votes, finalizedHead := hash, map[], map[], hash;
    }

    method ProcessTransaction(tx: Transaction) returns (ok: bool)
      requires state.Valid()
      modifies state
      ensures state.Valid()
      ensures ok <==> ValidLogic(tx) && crypto.txSigned(tx) && Apply(crypto.id, old(state.View()), tx).Ok()
      ensures state.View() ==
        if ValidLogic(tx) && crypto.txSigned(tx) then Apply(crypto.id, old(state.View()), tx).ledger else old(state.View())
      ensures ok ==> state.pending.Keys == old(state.pending).Keys + Touched(old(state.View()), tx)
    {
      hide Apply, ValidLogic, Touched;
      if !crypto.txSigned(tx) || !ValidLogic(tx) { return false; }
      var error := state.ApplyTransaction(crypto.id, tx);
      ok := error.None?;
    }

    /** The execution loop of `add_block`, up to the first failure. */
    method ExecuteTransactions(txs: seq<Transaction>) returns (ok: bool)
      requires state.Valid()
      modifies state
      ensures state.Valid()
      ensures ok == ExecuteAll(crypto, old(state.View()), txs).Ok()
      ensures state.View() == ExecuteAll(crypto, old(state.View()), txs).ledger
      ensures ok ==> state.pending.Keys == old(state.pending).Keys + TouchedAll(crypto, old(state.View()), txs)
    {
      hide Apply, ValidLogic, Touched;
      for i := 0 to |txs|
        invariant state.Valid()
        invariant ExecuteAll(crypto, state.View(), txs[i..]) == ExecuteAll(crypto, old(state.View()), txs)
        invariant state.pending.Keys + TouchedAll(crypto, state.View(), txs[i..])
               == old(state.pending).Keys + TouchedAll(crypto, old(state.View()), txs)
      {
        assert txs[i..][0] == txs[i] && txs[i..][1..] == txs[i + 1..];
        var done := ProcessTransaction(txs[i]);
        if !done { return false; }
      }
      ok := true;
    }

    /** Memory first, then disk; a second header of the validator for the slot slashes it. */
    method CheckEquivocation(block: Block) returns (slashed: bool)
      requires Valid()
      modifies this`seenHeaders, storage, validators
      ensures Valid()
      ensures slashed <==> Equivocates(old(View()), block)
      ensures View() == if slashed then old(View()).(validators := Slash(old(View()).validators, block.header.validator))
                        else Noted(old(View()), block)
    {
      var key := (block.header.slot, block.header.validator);
      var existing := Find(seenHeaders, key);
      if existing.None? { existing := storage.GetSeenHeader(block.header.slot, block.header.validator); }
      slashed := false;
      if existing.Some? {
        if existing.value != block.hash {
          var _ := validators.SlashValidator(block.header.validator);
          slashed := true;
        }
      } else {
        seenHeaders := seenHeaders[key := block.hash];
        storage.StoreSeenHeader(block.header.slot, block.header.validator, block.hash);
      }
    }

    lemma ValidStoresHead()
      requires Valid()
      ensures HeadStored(View())
    {
    }

    /** Execution from a clean overlay and the state-root check; a failure is rolled back. */
    method ExecuteBlock(block: Block) returns (ok: bool)
      requires Valid()
      modifies state
      ensures Valid() && ok == Executes(crypto, old(View()), block)
      ensures !ok ==> View() == RolledBack(old(View()), Executed(crypto, old(View()), block))
      ensures ok ==> state.View() == Executed(crypto, old(View()), block) && SameButOverlay(old(View()), View())
      ensures ok ==> state.pending.Keys == TouchedAll(crypto, LedgerOf(old(View())), block.transactions)
    {
      hide Refines, Closed, ExecuteAll, TouchedAll;
      state.DiscardChanges();
      ok := ExecuteTransactions(block.transactions);
      if !ok {
        state.DiscardChanges();
        return;
      }
      if block.header.stateRoot.Some? && block.header.stateRoot != state.trie.root {
        state.DiscardChanges();
        ok := false;
      }
    }

    /** Exactly the model's step, and the model's verdict. */
    method AddBlock(block: Block) returns (ok: bool)
      requires Valid()
      requires Accepted(crypto, View(), block) ==>
        NeverPanics(state.trie.root, TouchedAll(crypto, LedgerOf(View()), block.transactions))
      modifies this, storage, state, state.trie, validators
      ensures Valid()
      ensures ok == Accepted(crypto, old(View()), block)
      ensures Next(crypto, old(View()), Deliver(block), View())
    {
      hide Valid, View, State.View, NeverPanics, Commits, Accept, IndexAll, ExecuteAll, Validate, Slash;
      hide TouchedAll, Next, Accepted, Executes, SameButOverlay, Noted, LedgerOf, Equivocates, RolledBack;
      ValidStoresHead();
      ghost var n := View();
      DeliveryCases(crypto, n, block);
      NotedKeepsLedger(n, block);
      var found := GetBlock(block.header.parentHash);
      if found.None? { return false; }
      var slashed := CheckEquivocation(block);
      if slashed { return false; }
      if Validate(crypto, block, found.value, validators.View()).Some? { return false; }
      var executed := ExecuteBlock(block);
      if !executed { return false; }
      ghost var m := View();
      AcceptBlock(block);
      AcceptOverrides(Noted(n, block), m, block, Executed(crypto, n, block), state.trie.root);
      DeliveryAccepted(crypto, n, block, state.trie.root);
      ok := true;
    }

    method GetBlock(hash: Bytes) returns (block: Option<Block>)
      requires Valid()
      ensures block == Find(View().tables.blocks, hash)
    {
      block := storage.GetBlock(hash);
    }

    method GetHead() returns (block: Block)
      requires Valid()
      ensures block == View().tables.blocks[head]
    {
      var found := storage.GetBlock(head);
      block := found.value;
    }

    /** Fork choice, block, accounts and height, in this order. */
    method CommitBlock(block: Block)
      requires Valid() && NeverPanics(state.trie.root, state.pending.Keys)
      modifies this`head, storage, state, state.trie
      ensures Valid() && storage.accounts == old(state.View()).accounts
      ensures View() == Accept(old(View()), block, old(state.View()), state.trie.root)
      ensures Commits(old(state.trie.root), old(storage.accounts), storage.accounts, state.trie.root)
    {
      var current := GetHead();
      if IsBetter(block.header, current.header) {
        head := block.hash;
        storage.StoreHead(head);
      }
      storage.StoreBlock(block);
      state.ApplyChanges();
      storage.StoreBlockByHeight(block.header.slot, block.hash);
    }

    method AcceptBlock(block: Block)
      requires Valid() && NeverPanics(state.trie.root, state.pending.Keys)
      modifies this`head, storage, state, state.trie, validators
      ensures Valid()
      ensures View() == IndexAll(crypto, Accept(old(View()), block, old(state.View()), state.trie.root), block, block.transactions)
      ensures Commits(old(state.trie.root), old(storage.accounts), old(state.View()).accounts, state.trie.root)
    {
      hide Refines, Closed, NeverPanics, Commits, IndexAll, Accept;
      CommitBlock(block);
      IndexTransactions(block);
    }

    method UpdateRegistry(tx: Transaction, epoch: U64)
      requires Valid()
      modifies state, validators
      ensures Valid() && View() == UpdateValidators(old(View()), tx, epoch)
    {
      if tx.data.RegisterValidator? {
        var _ := validators.RegisterValidator(tx.sender, tx.data.stake, epoch);
      } else if tx.data.UnregisterValidator? {
        var stake := validators.UnregisterValidator(tx.sender);
        if stake.Some? {
          var found := state.GetAccount(tx.sender);
          var account := GetOr(found, FRESH_ACCOUNT);
          state.Write(tx.sender, account.(balance := Add64(account.balance, stake.value)));
        }
      }
    }

    method IndexOne(tx: Transaction, hash: Bytes)
      requires Valid()
      modifies storage
      ensures Valid() && View() == IndexTransaction(crypto, old(View()), tx, hash)
    {
      var txHash := Hex(crypto.txHash(tx));
      storage.StoreTransactionIndex(txHash, hash);
      storage.AddTransactionToAddress(Hex(tx.sender), txHash);
      storage.AddTransactionToAddress(Hex(tx.receiver), txHash);
    }

    /** The indexing loop of `add_block`. */
    method IndexTransactions(block: Block)
      requires Valid()
      modifies storage, state, validators
      ensures Valid() && View() == IndexAll(crypto, old(View()), block, block.transactions)
    {
      var txs := block.transactions;
      for i := 0 to |txs|
        invariant Valid()
        invariant IndexAll(crypto, View(), block, txs[i..]) == IndexAll(crypto, old(View()), block, txs)
      {
        assert txs[i..][0] == txs[i] && txs[i..][1..] == txs[i + 1..];
        UpdateRegistry(txs[i], block.header.epoch);
        IndexOne(txs[i], block.hash);
      }
    }

    method AddVote(vote: Vote) returns (ok: bool)
      requires Valid()
      modifies this`votes, this`finalizedHead, storage
      ensures Valid() && Reply(ok, View()) == N.AddVote(crypto, old(View()), vote)
      ensures ok <==>
        && vote.validator in validators.validators && crypto.voteSigned(vote)
        && forall u :: u in VotesFor(old(View()), vote.blockHash) ==> u.validator != vote.validator
    {
      VoteVerdict(crypto, View(), vote);
      if vote.validator !in validators.validators { return false; }
      if !crypto.voteSigned(vote) { return false; }
      var recorded := GetOr(Find(votes, vote.blockHash), []);
      for i := 0 to |recorded|
        invariant forall j :: 0 <= j < i ==> recorded[j].validator != vote.validator
      {
        if recorded[i].validator == vote.validator { return false; }
      }
      votes := votes[vote.blockHash := recorded + [vote]];
      storage.StoreVote(vote);
      CheckFinality(vote.blockHash);
      ok := true;
    }

    method CheckFinality(hash: Bytes)
      requires Valid()
      modifies this`finalizedHead
      ensures Valid()
      ensures View() == old(View()).(finalized :=
        if hash in votes && Quorum(votes[hash], validators.View()) then hash else old(finalizedHead))
    {
      if hash in votes {
        var stake := validators.SumVotes(votes[hash]);
        if validators.totalStake > 0 && 10000 * stake > 6666 * validators.totalStake && finalizedHead != hash {
          finalizedHead := hash;
        }
      }
    }

    /** The node's pruning call. */
    method Prune(target: U64) returns (deleted: nat)
      requires Valid()
      modifies storage
      ensures Valid() && View() == N.Prune(old(View()), target)
      ensures deleted == |DeletedHeights(old(storage.tables), target, head)|
    {
      deleted := storage.PruneBlocksBefore(target, head);
    }

    /** One configured validator: funded and registered if its balance is zero. */
    method FundValidator(pubkey: Bytes)
      requires Valid()
      modifies state, validators
      ensures Valid() && state.pending.Keys <= old(state.pending).Keys + {pubkey}
      ensures View() == old(View()).(pending := state.pending, validators := validators.View())
      ensures (state.View().accounts, validators.View()) == Endow(old(state.View().accounts), old(validators.View()), pubkey)
    {
      var balance := state.GetBalance(pubkey);
      if balance == 0 {
        state.SetBalance(pubkey, BOOT_STAKE);
        var _ := validators.RegisterValidator(pubkey, BOOT_STAKE, 0);
      }
    }

    /** The start-up loop over the configured validators. */
    method FundValidators(pubkeys: seq<Bytes>)
      requires Valid()
      modifies state, validators
      ensures Valid() && state.pending.Keys <= old(state.pending).Keys + set k | k in pubkeys
      ensures View() == old(View()).(pending := state.pending, validators := validators.View())
      ensures (state.View().accounts, validators.View()) == EndowAll(old(state.View().accounts), old(validators.View()), pubkeys)
    {
      hide Endow, HeadStored, Refines, Closed;
      for i := 0 to |pubkeys|
        invariant Valid() && state.pending.Keys <= old(state.pending).Keys + set k | k in pubkeys[..i]
        invariant View() == old(View()).(pending := state.pending, validators := validators.View())
        invariant EndowAll(state.View().accounts, validators.View(), pubkeys[i..])
               == EndowAll(old(state.View().accounts), old(validators.View()), pubkeys)
      {
        assert pubkeys[i..][0] == pubkeys[i] && pubkeys[i..][1..] == pubkeys[i + 1..];
        FundValidator(pubkeys[i]);
      }
    }

    /** Start-up: the configured validators, then a commit. */
    method Boot(pubkeys: seq<Bytes>)
      requires Valid() && state.pending == map[]
      requires NeverPanics(state.trie.root, set k | k in pubkeys)
      modifies storage, state, state.trie, validators
      ensures Valid() && Next(crypto, old(View()), N.Boot(pubkeys), View())
    {
      hide Refines, Closed, EndowAll, Commits;
      assert storage.accounts + map[] == storage.accounts;
      FundValidators(pubkeys);
      FewerKeys(state.trie.root, state.pending.Keys, set k | k in pubkeys);
      state.ApplyChanges();
    }
  }

  /** Execution and the state root let the block pass. */
  predicate Executes(c: Crypto, n: Node, b: Block)
  {
    ExecuteAll(c, LedgerOf(n), b.transactions).Ok() && (b.header.stateRoot.Some? ==> b.header.stateRoot == n.root)
  }

  /** What a delivery comes to, by the first check that fails. */
  lemma DeliveryCases(c: Crypto, n: Node, b: Block)
    requires HeadStored(n)
    ensures b.header.parentHash !in n.tables.blocks ==> !Accepted(c, n, b) && Next(c, n, Deliver(b), n)
    ensures b.header.parentHash in n.tables.blocks && Equivocates(n, b) ==>
      !Accepted(c, n, b) && Next(c, n, Deliver(b), n.(validators := Slash(n.validators, b.header.validator)))
    ensures b.header.parentHash in n.tables.blocks && !Equivocates(n, b) ==>
      var m, parent := Noted(n, b), n.tables.blocks[b.header.parentHash];
      if Validate(c, b, parent, m.validators).Some? then !Accepted(c, n, b) && Next(c, n, Deliver(b), m)
      else if !Executes(c, m, b) then !Accepted(c, n, b) && Next(c, n, Deliver(b), RolledBack(m, Executed(c, m, b)))
      else Accepted(c, n, b)
  {
    hide Validate, ExecuteAll, Slash, Commits, IndexAll, Accept;
  }

  lemma DeliveryAccepted(c: Crypto, n: Node, b: Block, root: Root<Account>)
    requires HeadStored(n) && Accepted(c, n, b)
    requires Commits(n.root, n.accounts, Executed(c, n, b).accounts, root)
    ensures Next(c, n, Deliver(b), IndexAll(c, Accept(Noted(n, b), b, Executed(c, n, b), root), b, b.transactions))
  {
    AddBlockEffect(c, n, b, root);
    IndexAllFrame(c, Accept(Noted(n, b), b, Executed(c, n, b), root), b, b.transactions);
    hide Commits, Validate, ExecuteAll, IndexAll, AddBlock;
  }

  predicate Equivocates(n: Node, b: Block)
  {
    SeenHeader(n, KeyOf(b)).Some? && SeenHeader(n, KeyOf(b)).value != b.hash
  }

  predicate SameButOverlay(n: Node, m: Node)
  {
    m == n.(pending := m.pending, assets := m.assets, collections := m.collections, channels := m.channels)
  }

  lemma AcceptOverrides(n: Node, m: Node, b: Block, l: Ledger, root: Root<Account>)
    requires SameButOverlay(n, m)
    requires n.head in n.tables.blocks
    ensures Accept(n, b, l, root) == Accept(m, b, l, root)
  {
  }

  lemma FewerKeys(root: Root<Account>, keys: set<Bytes>, more: set<Bytes>)
    requires NeverPanics(root, more) && keys <= more
    ensures NeverPanics(root, keys)
  {
  }
}
