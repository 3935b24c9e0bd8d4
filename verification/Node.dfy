/** The node as a value and its steps: blocks, votes, pruning, restart. */
module Node {
  import opened Base
  import opened Text
  import opened TrieModel
  import opened TrieContent
  import opened Ledger
  import opened Validators
  import opened Consensus

  /** The tables on disk, the accounts apart. */
  datatype Tables = Tables(
    blocks: map<Bytes, Block>,
    heights: map<U64, Bytes>,
    head: Option<Bytes>,
    headers: map<(U64, Bytes), Bytes>,
    votes: map<(Bytes, Bytes), Vote>,
    txIndex: map<Bytes, Bytes>,
    history: map<Bytes, seq<Bytes>>)

  /** `accounts` are the stored ones; `pending` is the overlay between two blocks. */
  datatype Node = Node(
    tables: Tables,
    accounts: map<Bytes, Account>,
    pending: map<Bytes, Account>,
    assets: map<Bytes, Asset>,
    collections: map<Bytes, Collection>,
    channels: map<Bytes, Channel>,
    root: Root<Account>,
    validators: Registry,
    seen: map<(U64, Bytes), Bytes>,
    votes: map<Bytes, seq<Vote>>,
    head: Bytes,
    finalized: Bytes)

  /** What a transaction starts from when the overlay is empty. */
  function LedgerOf(n: Node): Ledger
  {
    Ledger(n.accounts, n.assets, n.collections, n.channels)
  }

  // ---------------------------------------------------------------------------------------
  // add_block
  // ---------------------------------------------------------------------------------------

  /** `process_transaction` over a list, stopping at the first failure. */
  function ExecuteAll(c: Crypto, l: Ledger, txs: seq<Transaction>): Outcome
    decreases |txs|
  {
    if txs == [] then Done(l)
    else if !ValidLogic(txs[0]) || !c.txSigned(txs[0]) then Fail(l, InvalidTransaction)
    else
      var o := Apply(c.id, l, txs[0]);
      if o.Ok() then ExecuteAll(c, o.ledger, txs[1..]) else o
  }

  /** Memory first, then disk. */
  function SeenHeader(n: Node, key: (U64, Bytes)): Option<Bytes>
  {
    if key in n.seen then Some(n.seen[key]) else Find(n.tables.headers, key)
  }

  function RecordHeader(n: Node, key: (U64, Bytes), hash: Bytes): Node
  {
    n.(seen := n.seen[key := hash], tables := n.tables.(headers := n.tables.headers[key := hash]))
  }

  /** The node after the equivocation check of a block whose parent is known. */
  function Noted(n: Node, b: Block): Node
  {
    var key := (b.header.slot, b.header.validator);
    if SeenHeader(n, key).None? then RecordHeader(n, key, b.hash) else n
  }

  /** Registries survive a roll-back; the overlay does not. */
  function RolledBack(n: Node, l: Ledger): Node
  {
    n.(pending := map[], assets := l.assets, collections := l.collections, channels := l.channels)
  }

  function ReadThrough(n: Node, a: Bytes): Account
  {
    if a in n.pending then n.pending[a] else GetOr(Find(n.accounts, a), FRESH_ACCOUNT)
  }

  /** A registration takes effect in the validator set; the stake of an unregistered validator goes
      into the overlay, after the commit. */
  function UpdateValidators(n: Node, tx: Transaction, epoch: U64): Node
  {
    if tx.data.RegisterValidator? then
      n.(validators := Register(n.validators, tx.sender, tx.data.stake, epoch))
    else if tx.data.UnregisterValidator? && tx.sender in n.validators.infos then
      var account := ReadThrough(n, tx.sender);
      var refunded := account.(balance := Add64(account.balance, n.validators.infos[tx.sender].stake));
      n.(validators := Unregister(n.validators, tx.sender), pending := n.pending[tx.sender := refunded])
    else n
  }

  function Append(history: map<Bytes, seq<Bytes>>, address: Bytes, hash: Bytes): map<Bytes, seq<Bytes>>
  {
    history[address := GetOr(Find(history, address), []) + [hash]]
  }

  function IndexTransaction(c: Crypto, n: Node, tx: Transaction, blockHash: Bytes): Node
  {
    var hash := Hex(c.txHash(tx));
    n.(tables := n.tables.(
      txIndex := n.tables.txIndex[hash := blockHash],
      history := Append(Append(n.tables.history, Hex(tx.sender), hash), Hex(tx.receiver), hash)))
  }

  function IndexAll(c: Crypto, n: Node, b: Block, txs: seq<Transaction>): Node
    decreases |txs|
  {
    if txs == [] then n
    else IndexAll(c, IndexTransaction(c, UpdateValidators(n, txs[0], b.header.epoch), txs[0], b.hash), b, txs[1..])
  }

  datatype Reply = Reply(accepted: bool, node: Node)

  /** `add_block`. `root'` is the root the commit produces; it matters only when the block is accepted. */
  function AddBlock(c: Crypto, n: Node, b: Block, root': Root<Account>): Reply
    requires n.head in n.tables.blocks
  {
    if b.header.parentHash !in n.tables.blocks then Reply(false, n)
    else
      var parent := n.tables.blocks[b.header.parentHash];
      var existing := SeenHeader(n, (b.header.slot, b.header.validator));
      if existing.Some? && existing.value != b.hash then
        Reply(false, n.(validators := Slash(n.validators, b.header.validator)))
      else
        var n1 := Noted(n, b);
        if Validate(c, b, parent, n1.validators).Some? then Reply(false, n1)
        else
          var o := ExecuteAll(c, LedgerOf(n1), b.transactions);
          if !o.Ok() || (b.header.stateRoot.Some? && b.header.stateRoot != n1.root) then
            Reply(false, RolledBack(n1, o.ledger))
          else
            Reply(true, IndexAll(c, Accept(n1, b, o.ledger, root'), b, b.transactions))
  }

  /** Fork choice prefers the block to the current head. */
  predicate Improves(n: Node, b: Block)
    requires n.head in n.tables.blocks
  {
    IsBetter(b.header, n.tables.blocks[n.head].header)
  }

  /** Head, block, accounts and height of an accepted block; `root'` is the trie after the overlay
      was inserted. */
  function Accept(n: Node, b: Block, l: Ledger, root': Root<Account>): Node
    requires n.head in n.tables.blocks
  {
    var better := Improves(n, b);
    n.(head := if better then b.hash else n.head,
       accounts := l.accounts, pending := map[], root := root',
       assets := l.assets, collections := l.collections, channels := l.channels,
       tables := n.tables.(
         head := if better then Some(b.hash) else n.tables.head,
         blocks := n.tables.blocks[b.hash := b],
         heights := n.tables.heights[b.header.slot := b.hash]))
  }

  predicate Accepted(c: Crypto, n: Node, b: Block)
    requires n.head in n.tables.blocks
  {
    AddBlock(c, n, b, None).accepted
  }

  /** The ledger an accepted block leaves. */
  function Executed(c: Crypto, n: Node, b: Block): Ledger
  {
    ExecuteAll(c, LedgerOf(n), b.transactions).ledger
  }

  /** The entries an overlay inserts into the trie, in one iteration order. */
  function Entries<V>(order: seq<Bytes>, m: map<Bytes, V>): seq<(Bytes, V)>
    requires forall k :: k in order ==> k in m
  {
    seq(|order|, i requires 0 <= i < |order| => (order[i], m[order[i]]))
  }

  ghost predicate CommitsVia(root: Root<Account>, overlay: map<Bytes, Account>, order: seq<Bytes>, root': Root<Account>)
  {
    && ShapedRoot(root) && IsOrdering(order, overlay.Keys)
    && CanInsertAll(root, Entries(order, overlay))
    && root' == InsertAll(root, Entries(order, overlay))
  }

  /** `root'` is a root `apply_changes` can reach from `root` when the stored accounts change from
      `before` to `after`: some overlay accounts for the change and is inserted in some order. */
  ghost predicate Commits(root: Root<Account>, before: map<Bytes, Account>, after: map<Bytes, Account>,
        root': Root<Account>)
  {
    exists overlay, order :: after == before + overlay && CommitsVia(root, overlay, order, root')
  }

  // ---------------------------------------------------------------------------------------
  // Votes, pruning, restart
  // ---------------------------------------------------------------------------------------

  predicate HasVoted(votes: seq<Vote>, validator: Bytes)
  {
    exists i :: 0 <= i < |votes| && votes[i].validator == validator
  }

  /** `add_vote`. */
  function AddVote(c: Crypto, n: Node, v: Vote): Reply
  {
    if v.validator !in n.validators.infos || !c.voteSigned(v) then Reply(false, n)
    else
      var votes := GetOr(Find(n.votes, v.blockHash), []);
      if HasVoted(votes, v.validator) then Reply(false, n)
      else
        var n1 := n.(votes := n.votes[v.blockHash := votes + [v]],
                     tables := n.tables.(votes := n.tables.votes[(v.blockHash, v.validator) := v]));
        Reply(true, if Quorum(votes + [v], n.validators) then n1.(finalized := v.blockHash) else n1)
  }

  /** The indexed heights a pruning goes through. */
  function PrunedHeights(t: Tables, target: U64): set<U64>
  {
    set h | h in t.heights && 1 <= h < target
  }

  /** The hashes it deletes: all of them but the head's. */
  function Doomed(t: Tables, target: U64, head: Bytes): set<Bytes>
  {
    set h | h in t.heights && 1 <= h < target && t.heights[h] != head :: t.heights[h]
  }

  function PruneTables(t: Tables, target: U64, head: Bytes): Tables
  {
    t.(heights := t.heights - PrunedHeights(t, target), blocks := t.blocks - Doomed(t, target, head))
  }

  function Prune(n: Node, target: U64): Node
  {
    n.(tables := PruneTables(n.tables, target, n.head))
  }

  /** `Chain::new` on what is on disk: everything else starts empty, and `root` is the rebuilt trie. */
  function Restart(tables: Tables, accounts: map<Bytes, Account>, genesis: Block, root: Root<Account>): Node
  {
    var t := if tables.head.Some? then tables
             else tables.(blocks := tables.blocks[genesis.hash := genesis], head := Some(genesis.hash));
    Node(t, accounts, map[], map[], map[], map[], root, Registry(map[], 0), map[], map[], t.head.value, t.head.value)
  }

  const BOOT_STAKE: U64 := 1_000_000

  /** One configured validator at start-up: funded and registered if its balance is zero. */
  function Endow(accounts: map<Bytes, Account>, r: Registry, pubkey: Bytes): (map<Bytes, Account>, Registry)
  {
    var account := GetOr(Find(accounts, pubkey), FRESH_ACCOUNT);
    if account.balance != 0 then (accounts, r)
    else (accounts[pubkey := account.(balance := BOOT_STAKE)], Register(r, pubkey, BOOT_STAKE, 0))
  }

  function EndowAll(accounts: map<Bytes, Account>, r: Registry, pubkeys: seq<Bytes>): (map<Bytes, Account>, Registry)
    decreases |pubkeys|
  {
    if pubkeys == [] then (accounts, r)
    else var (a, s) := Endow(accounts, r, pubkeys[0]); EndowAll(a, s, pubkeys[1..])
  }

  // ---------------------------------------------------------------------------------------
  // Steps and runs
  // ---------------------------------------------------------------------------------------

  datatype Step =
    | Deliver(block: Block)
    | Cast(vote: Vote)
    | PruneBefore(target: U64)
    | Reopen(genesis: Block)
    | Boot(pubkeys: seq<Bytes>)

  ghost predicate Next(c: Crypto, n: Node, step: Step, n': Node)
    requires n.head in n.tables.blocks
  {
    match step
    case Deliver(b) =>
      && n' == AddBlock(c, n, b, n'.root).node
      && (Accepted(c, n, b) ==> Commits(n.root, n.accounts, Executed(c, n, b).accounts, n'.root))
    case Cast(v) => n' == AddVote(c, n, v).node
    case PruneBefore(target) => n' == Prune(n, target)
    case Reopen(genesis) =>
      && n' == Restart(n.tables, n.accounts, genesis, n'.root)
      && Commits(None, map[], n.accounts, n'.root)
    case Boot(pubkeys) =>
      && n.pending == map[]
      && var (a, r) := EndowAll(n.accounts, n.validators, pubkeys);
         n' == n.(accounts := a, validators := r, root := n'.root) && Commits(n.root, n.accounts, a, n'.root)
  }

  /** The head is stored, on disk as in memory: what every reachable node satisfies. */
  predicate HeadStored(n: Node)
  {
    n.tables.head == Some(n.head) && n.head in n.tables.blocks
  }

  /** A run: one more state than steps, each step taken from a node whose head is stored. */
  ghost predicate IsRun(c: Crypto, states: seq<Node>, steps: seq<Step>)
  {
    && |states| == |steps| + 1
    && forall i :: 0 <= i < |steps| ==> HeadStored(states[i]) && Next(c, states[i], steps[i], states[i + 1])
  }
}
