/** What every step of the node keeps. */
module Invariants {
  import opened Base
  import opened TrieModel
  import opened Ledger
  import opened Validators
  import opened Consensus
  import opened Node
  import opened Text
  import opened Merkle

  /** The four ways a block can be refused. */
  ghost predicate Refused(c: Crypto, n: Node, b: Block, n': Node)
  {
    || n' == n
    || n' == n.(validators := Slash(n.validators, b.header.validator))
    || n' == Noted(n, b)
    || n' == RolledBack(Noted(n, b), Executed(c, n, b))
  }

  /** What an accepted block has passed. */
  ghost predicate Passed(c: Crypto, n: Node, b: Block)
  {
    && b.header.parentHash in n.tables.blocks
    && (SeenHeader(n, (b.header.slot, b.header.validator)).Some? ==>
          SeenHeader(n, (b.header.slot, b.header.validator)).value == b.hash)
    && Validate(c, b, n.tables.blocks[b.header.parentHash], n.validators).None?
    && ExecuteAll(c, LedgerOf(n), b.transactions).Ok()
    && (b.header.stateRoot.Some? ==> b.header.stateRoot == n.root)
  }

  lemma NotedKeepsLedger(n: Node, b: Block)
    ensures LedgerOf(Noted(n, b)) == LedgerOf(n)
    ensures Noted(n, b).root == n.root && Noted(n, b).accounts == n.accounts && Noted(n, b).assets == n.assets
    ensures Noted(n, b).head == n.head && Noted(n, b).tables.blocks == n.tables.blocks
  {
    hide SeenHeader;
  }

  lemma AddBlockEffect(c: Crypto, n: Node, b: Block, root': Root<Account>)
    requires n.head in n.tables.blocks
    ensures AddBlock(c, n, b, root').accepted <==> Passed(c, n, b)
    ensures Accepted(c, n, b) <==> Passed(c, n, b)
    ensures !Passed(c, n, b) ==> Refused(c, n, b, AddBlock(c, n, b, root').node)
    ensures Passed(c, n, b) ==>
      AddBlock(c, n, b, root').node == IndexAll(c, Accept(Noted(n, b), b, Executed(c, n, b), root'), b, b.transactions)
  {
    hide ExecuteAll, IndexAll, Validate, Accept;
    assert LedgerOf(Noted(n, b)) == LedgerOf(n);
  }

  /** A block is accepted exactly when its parent is stored under the hash it names and has a smaller
      slot, no other header of its validator is recorded for the slot, the VRF proof holds, the
      validator leads the slot, the transaction root is that of its transactions, all of them succeed
      on the stored accounts, and a state root, if given, is the one before the block. */
  lemma AcceptedIff(c: Crypto, n: Node, b: Block)
    requires n.head in n.tables.blocks
    ensures Accepted(c, n, b) <==>
      && b.header.parentHash in n.tables.blocks
      && n.tables.blocks[b.header.parentHash].hash == b.header.parentHash
      && n.tables.blocks[b.header.parentHash].header.slot < b.header.slot
      && SeenHeader(n, (b.header.slot, b.header.validator)) in {None, Some(b.hash)}
      && c.vrfValid(b.header, n.tables.blocks[b.header.parentHash].header)
      && IsSlotLeader(n.validators, b.header.validator, b.header.vrfOutput)
      && b.header.txRoot == MerkleRoot(TxHashes(c, b.transactions))
      && ExecuteAll(c, LedgerOf(n), b.transactions).Ok()
      && b.header.stateRoot in {None, n.root}
  {
    AddBlockEffect(c, n, b, None);
    hide AddBlock, Accepted, ExecuteAll, SeenHeader, IsSlotLeader, MerkleRoot, TxHashes;
  }

  /** Nothing but the validator set, the overlay and the two indexes differs. */
  predicate SameButIndexes(n: Node, m: Node)
  {
    && m.accounts == n.accounts && m.assets == n.assets && m.collections == n.collections
    && m.channels == n.channels && m.root == n.root && m.seen == n.seen && m.votes == n.votes
    && m.head == n.head && m.finalized == n.finalized
    && m.tables.blocks == n.tables.blocks && m.tables.heights == n.tables.heights
    && m.tables.head == n.tables.head && m.tables.headers == n.tables.headers && m.tables.votes == n.tables.votes
  }

  lemma UpdateFrame(n: Node, tx: Transaction, epoch: U64)
    ensures SameButIndexes(n, UpdateValidators(n, tx, epoch))
  {
    hide Register, Unregister, ReadThrough, Add64;
    if tx.data.RegisterValidator? {
    } else if tx.data.UnregisterValidator? && tx.sender in n.validators.infos {
    } else {
      assert UpdateValidators(n, tx, epoch) == n;
    }
  }

  lemma IndexFrame(c: Crypto, n: Node, tx: Transaction, hash: Bytes)
    ensures SameButIndexes(n, IndexTransaction(c, n, tx, hash))
  {
    hide Hex, Append;
  }

  lemma SameTransitive(n: Node, m: Node, k: Node)
    requires SameButIndexes(n, m) && SameButIndexes(m, k)
    ensures SameButIndexes(n, k)
  {
  }

  lemma {:induction false} IndexAllFrame(c: Crypto, n: Node, b: Block, txs: seq<Transaction>)
    ensures SameButIndexes(n, IndexAll(c, n, b, txs))
    decreases |txs|
  {
    if txs != [] {
      hide SameButIndexes, UpdateValidators, IndexTransaction;
      var n1 := UpdateValidators(n, txs[0], b.header.epoch);
      var n2 := IndexTransaction(c, n1, txs[0], b.hash);
      UpdateFrame(n, txs[0], b.header.epoch);
      IndexFrame(c, n1, txs[0], b.hash);
      IndexAllFrame(c, n2, b, txs[1..]);
      SameTransitive(n, n1, n2);
      SameTransitive(n, n2, IndexAll(c, n2, b, txs[1..]));
    } else {
      assert IndexAll(c, n, b, txs) == n;
    }
  }

  lemma AcceptFrame(n: Node, b: Block, l: Ledger, root': Root<Account>)
    requires n.head in n.tables.blocks
    ensures var m := Accept(Noted(n, b), b, l, root');
            && m.accounts == l.accounts && m.root == root'
            && m.tables.blocks == n.tables.blocks[b.hash := b]
            && m.tables.heights == n.tables.heights[b.header.slot := b.hash]
  {
    hide Improves, SeenHeader;
  }

  /** Block atomicity: a refused block leaves the accounts, the trie, the head, the blocks and every
      index as they were; an accepted one stores exactly the accounts that executing its
      transactions one after the other on the stored accounts gives, whatever the overlay held. */
  lemma BlockAtomicity(c: Crypto, n: Node, b: Block, root': Root<Account>)
    requires n.head in n.tables.blocks
    ensures !Accepted(c, n, b) ==> Unchanged(n, AddBlock(c, n, b, root').node)
    ensures Accepted(c, n, b) ==> Extended(c, n, b, root', AddBlock(c, n, b, root').node)
  {
    AddBlockEffect(c, n, b, root');
    if Passed(c, n, b) {
      AcceptedExtends(c, n, b, root');
    } else {
      RefusedChangesNothing(c, n, b, AddBlock(c, n, b, root').node);
    }
    hide *;
  }

  lemma AcceptedExtends(c: Crypto, n: Node, b: Block, root': Root<Account>)
    requires n.head in n.tables.blocks
    ensures Extended(c, n, b, root', IndexAll(c, Accept(Noted(n, b), b, Executed(c, n, b), root'), b, b.transactions))
  {
    var m := Accept(Noted(n, b), b, Executed(c, n, b), root');
    AcceptFrame(n, b, Executed(c, n, b), root');
    IndexAllFrame(c, m, b, b.transactions);
    hide IndexAll, ExecuteAll, Accept, Noted;
  }

  lemma RefusedChangesNothing(c: Crypto, n: Node, b: Block, n': Node)
    requires Refused(c, n, b, n')
    ensures Unchanged(n, n')
  {
    NotedUnchanged(n, b);
    hide Noted, Slash, Executed;
    if n' == n {
    } else if n' == n.(validators := Slash(n.validators, b.header.validator)) {
    } else if n' == Noted(n, b) {
    } else {
      assert n' == RolledBack(Noted(n, b), Executed(c, n, b));
    }
  }

  lemma NotedUnchanged(n: Node, b: Block)
    ensures Unchanged(n, Noted(n, b))
  {
    hide SeenHeader;
  }

  predicate Unchanged(n: Node, n': Node)
  {
    && n'.accounts == n.accounts && n'.root == n.root
    && n'.head == n.head && n'.finalized == n.finalized && n'.votes == n.votes
    && n'.tables == n.tables.(headers := n'.tables.headers)
  }

  predicate Extended(c: Crypto, n: Node, b: Block, root': Root<Account>, n': Node)
  {
    && n'.accounts == ExecuteAll(c, LedgerOf(n), b.transactions).ledger.accounts
    && n'.root == root'
    && n'.tables.blocks == n.tables.blocks[b.hash := b]
    && n'.tables.heights == n.tables.heights[b.header.slot := b.hash]
  }

  // ---------------------------------------------------------------------------------------
  // The head
  // ---------------------------------------------------------------------------------------

  lemma HeadAfterAccept(n: Node, b: Block, l: Ledger, root': Root<Account>)
    requires HeadStored(n)
    ensures var m := Accept(Noted(n, b), b, l, root');
            m.tables.head == Some(m.head) && m.head == if Improves(n, b) then b.hash else n.head
  {
    hide IsBetter, SeenHeader;
  }

  /** The head stays stored, on disk as in memory: reading the head block never fails. */
  lemma DeliverKeepsHead(c: Crypto, n: Node, b: Block, root': Root<Account>)
    requires HeadStored(n)
    ensures HeadStored(AddBlock(c, n, b, root').node)
  {
    hide AddBlock, IndexAll, Accept, Noted, Passed, Refused, Executed, ExecuteAll, Accepted;
    AddBlockEffect(c, n, b, root');
    BlockAtomicity(c, n, b, root');
    NotedKeepsLedger(n, b);
    if Passed(c, n, b) {
      HeadAfterAccept(n, b, Executed(c, n, b), root');
      IndexAllFrame(c, Accept(Noted(n, b), b, Executed(c, n, b), root'), b, b.transactions);
    }
  }

  /** A vote changes nothing but the votes and the finalized head. */
  predicate SameButVotes(n: Node, m: Node)
  {
    m == n.(votes := m.votes, finalized := m.finalized, tables := n.tables.(votes := m.tables.votes))
  }

  lemma CastFrame(c: Crypto, n: Node, v: Vote)
    ensures SameButVotes(n, AddVote(c, n, v).node)
  {
    hide Quorum, HasVoted;
    if v.validator !in n.validators.infos || !c.voteSigned(v) {
    } else if HasVoted(GetOr(Find(n.votes, v.blockHash), []), v.validator) {
    } else if Quorum(GetOr(Find(n.votes, v.blockHash), []) + [v], n.validators) {
    }
  }

  lemma NextKeepsHead(c: Crypto, n: Node, step: Step, n': Node)
    requires HeadStored(n) && Next(c, n, step, n')
    ensures HeadStored(n')
  {
    hide AddBlock, Commits, EndowAll, AddVote, Executed, Accepted;
    if step.Deliver? {
      DeliverKeepsHead(c, n, step.block, n'.root);
    } else if step.Cast? {
      CastFrame(c, n, step.vote);
    } else if step.PruneBefore? {
    } else if step.Reopen? {
    } else {
      assert step.Boot?;
    }
  }

  // ---------------------------------------------------------------------------------------
  // Seen headers
  // ---------------------------------------------------------------------------------------

  /** Memory never contradicts disk. */
  ghost predicate SeenAgrees(n: Node)
  {
    forall k :: k in n.seen ==> k in n.tables.headers && n.tables.headers[k] == n.seen[k]
  }

  function KeyOf(b: Block): (U64, Bytes)
  {
    (b.header.slot, b.header.validator)
  }

  /** A delivery records at most the header of the block, and only where none was seen. */
  predicate HeadersAfter(n: Node, b: Block, n': Node)
  {
    || (n'.seen == n.seen && n'.tables.headers == n.tables.headers)
    || (SeenHeader(n, KeyOf(b)).None? && n'.seen == n.seen[KeyOf(b) := b.hash]
        && n'.tables.headers == n.tables.headers[KeyOf(b) := b.hash])
  }

  lemma NotedHeaders(n: Node, b: Block)
    ensures HeadersAfter(n, b, Noted(n, b))
    ensures SeenHeader(n, KeyOf(b)).Some? ==> Noted(n, b) == n
    ensures SeenHeader(n, KeyOf(b)).None? ==> SeenHeader(Noted(n, b), KeyOf(b)) == Some(b.hash)
  {
  }

  lemma AcceptKeepsHeaders(n: Node, b: Block, l: Ledger, root': Root<Account>)
    requires n.head in n.tables.blocks
    ensures Accept(n, b, l, root').seen == n.seen && Accept(n, b, l, root').tables.headers == n.tables.headers
    ensures Accept(n, b, l, root').votes == n.votes && Accept(n, b, l, root').validators == n.validators
  {
    hide Improves;
  }

  lemma DeliverHeaders(c: Crypto, n: Node, b: Block, root': Root<Account>)
    requires n.head in n.tables.blocks
    ensures var n' := AddBlock(c, n, b, root').node;
            && HeadersAfter(n, b, n')
            && (Accepted(c, n, b) ==> SeenHeader(n', KeyOf(b)) == Some(b.hash))
  {
    var n' := AddBlock(c, n, b, root').node;
    AddBlockEffect(c, n, b, root');
    NotedHeaders(n, b);
    if Passed(c, n, b) {
      var m := Accept(Noted(n, b), b, Executed(c, n, b), root');
      AcceptKeepsHeaders(Noted(n, b), b, Executed(c, n, b), root');
      IndexAllFrame(c, m, b, b.transactions);
      SameHeaders(Noted(n, b), n', KeyOf(b));
    } else {
      RefusedHeaders(c, n, b, n');
    }
    hide *;
  }

  lemma SameHeaders(n: Node, m: Node, key: (U64, Bytes))
    requires m.seen == n.seen && m.tables.headers == n.tables.headers
    ensures SeenHeader(m, key) == SeenHeader(n, key)
  {
  }

  lemma RefusedHeaders(c: Crypto, n: Node, b: Block, n': Node)
    requires Refused(c, n, b, n')
    ensures HeadersAfter(n, b, n')
  {
    NotedHeaders(n, b);
    hide Executed, Slash, SeenHeader, Noted;
    if n' == n {
    } else if n' == n.(validators := Slash(n.validators, b.header.validator)) {
    } else if n' == Noted(n, b) {
    } else {
      assert n' == RolledBack(Noted(n, b), Executed(c, n, b));
    }
  }

  ghost predicate HeadersKept(n: Node, n': Node)
  {
    forall k :: k in n.tables.headers ==> k in n'.tables.headers && n'.tables.headers[k] == n.tables.headers[k]
  }

  lemma SeenAfterDelivery(n: Node, b: Block, n': Node)
    requires SeenAgrees(n) && HeadersAfter(n, b, n')
    ensures SeenAgrees(n') && HeadersKept(n, n')
  {
  }

  /** Every step keeps memory and disk in agreement and never overwrites a recorded header. */
  lemma NextKeepsSeen(c: Crypto, n: Node, step: Step, n': Node)
    requires HeadStored(n) && SeenAgrees(n) && Next(c, n, step, n')
    ensures SeenAgrees(n') && HeadersKept(n, n')
  {
    if step.Deliver? {
      DeliverHeaders(c, n, step.block, n'.root);
      SeenAfterDelivery(n, step.block, n');
      hide SeenAgrees, HeadersKept;
    } else {
      QuietStep(c, n, step, n');
    }
    hide AddBlock, Commits, SeenHeader, HeadersAfter;
  }

  /** Steps other than deliveries record no header; a restart forgets the memory. */
  lemma QuietStep(c: Crypto, n: Node, step: Step, n': Node)
    requires HeadStored(n) && Next(c, n, step, n') && !step.Deliver?
    ensures n'.tables.headers == n.tables.headers && (n'.seen == n.seen || n'.seen == map[])
  {
    hide Commits, AddBlock, EndowAll, AddVote;
    if step.Cast? {
      CastFrame(c, n, step.vote);
    } else if step.PruneBefore? {
    } else if step.Reopen? {
    } else {
      assert step.Boot?;
    }
  }
}
