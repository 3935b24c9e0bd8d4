/** Runs from the first start: what holds there, and what runs keep of assets, of pruning and of the trie. */
module Runs {
  import opened Base
  import opened TrieModel
  import opened TrieContent
  import opened StateRoot
  import opened Ledger
  import opened Holdings
  import opened Supply
  import opened Validators
  import opened Consensus
  import opened Node
  import opened Invariants
  import opened Inflation
  import opened Safety
  import opened Lineage
  import opened Finality
  import opened Storage
  import opened LedgerState
  import opened Text

  // ---------------------------------------------------------------------------------------
  // The first start
  // ---------------------------------------------------------------------------------------

  /** What runs keep, all of it. */
  ghost predicate Good(c: Crypto, n: Node, genesis: Bytes, length: nat)
  {
    && HeadStored(n) && SeenAgrees(n) && VotesDistinct(n) && VotesSigned(c, n)
    && Sound(n.validators) && Bound(c, n) && HeightsPoint(n) && Rooted(n, genesis)
    && RootExact(n, length) && AssetsAgreeOrGone(n.accounts, n.assets)
  }

  lemma HeldByNobody(accounts: map<Bytes, Account>, id: Bytes)
    requires accounts == map[]
    ensures Held(accounts, id) == 0
  {
    assert HoldingsOf(accounts, id) == map[];
  }

  /** A node started on an empty disk satisfies every invariant, and nothing in it is worth anything. */
  lemma FirstStart(c: Crypto, genesis: Block, n: Node, length: nat)
    requires n == Restart(NO_TABLES, map[], genesis, None) && WellHashed(c, genesis)
    ensures Good(c, n, genesis.hash, length) && Wealth(n) == 0
  {
    EmptyIsSound();
    EmptyMirrors(length);
    forall id ensures Held(n.accounts, id) == 0 { HeldByNobody(n.accounts, id); }
    assert Balances(n.accounts) == map[] && Deposits(n.channels) == map[];
    hide Held, Represents;
  }

  // ---------------------------------------------------------------------------------------
  // Assets and items
  // ---------------------------------------------------------------------------------------

  /** Every transaction in turn, the failing ones included, and no roll-back. */
  function ApplyEach(id: IdHash, l: Ledger, txs: seq<Transaction>): Ledger
    decreases |txs|
  {
    if txs == [] then l else ApplyEach(id, Apply(id, l, txs[0]).ledger, txs[1..])
  }

  /** The transaction at `k` is well formed and signed, and succeeds after the earlier ones. */
  predicate Succeeds(c: Crypto, l: Ledger, txs: seq<Transaction>, k: nat)
    requires k < |txs|
  {
    ValidLogic(txs[k]) && c.txSigned(txs[k]) && Apply(c.id, ApplyEach(c.id, l, txs[..k]), txs[k]).Ok()
  }

  /** A block's transactions execute exactly when each is well formed, signed and succeeds in turn, and then they
      leave what applying them one after the other leaves. */
  lemma {:induction false} ExecuteAllIff(c: Crypto, l: Ledger, txs: seq<Transaction>)
    ensures ExecuteAll(c, l, txs).Ok() <==> forall k :: 0 <= k < |txs| ==> Succeeds(c, l, txs, k)
    ensures ExecuteAll(c, l, txs).Ok() ==> ExecuteAll(c, l, txs).ledger == ApplyEach(c.id, l, txs)
    decreases |txs|
  {
    hide Apply, ValidLogic;
    if txs != [] {
      var l1, rest := Apply(c.id, l, txs[0]).ledger, txs[1..];
      ExecuteAllIff(c, l1, rest);
      forall k | 0 <= k < |rest| ensures Succeeds(c, l1, rest, k) == Succeeds(c, l, txs, k + 1) {
        assert txs[..k + 1][0] == txs[0] && txs[..k + 1][1..] == rest[..k];
      }
      assert Succeeds(c, l, txs, 0) <==> ValidLogic(txs[0]) && c.txSigned(txs[0]) && Apply(c.id, l, txs[0]).Ok();
      if forall k :: 0 <= k < |txs| ==> Succeeds(c, l, txs, k) {
        forall k | 0 <= k < |rest| ensures Succeeds(c, l1, rest, k) { assert Succeeds(c, l, txs, k + 1); }
      }
      if Succeeds(c, l, txs, 0) && forall k :: 0 <= k < |rest| ==> Succeeds(c, l1, rest, k) {
        forall k | 0 <= k < |txs| ensures Succeeds(c, l, txs, k) {
          if k > 0 { assert Succeeds(c, l1, rest, k - 1); }
        }
      }
    }
  }

  /** Whatever is applied: every asset's holdings sum to its supply, and the registered owner of every
      item is the only account listing it, once. */
  lemma {:induction false} ApplyEachKeepsHoldings(id: IdHash, l: Ledger, txs: seq<Transaction>)
    requires AssetsAgree(l.accounts, l.assets) && ItemsAgree(l)
    ensures AssetsAgree(ApplyEach(id, l, txs).accounts, ApplyEach(id, l, txs).assets) && ItemsAgree(ApplyEach(id, l, txs))
    decreases |txs|
  {
    hide AssetsAgree, ItemsAgree, Apply;
    if txs != [] {
      ApplyKeepsAssets(id, l, txs[0]);
      ApplyKeepsItems(id, l, txs[0]);
      ApplyEachKeepsHoldings(id, Apply(id, l, txs[0]).ledger, txs[1..]);
    }
  }

  lemma {:induction false} ExecuteAllAssets(c: Crypto, l: Ledger, txs: seq<Transaction>, stored: map<Bytes, Account>)
    requires AssetsAgreeOrGone(l.accounts, l.assets) && AssetsAgreeOrGone(stored, l.assets)
    ensures var l' := ExecuteAll(c, l, txs).ledger;
            AssetsAgreeOrGone(l'.accounts, l'.assets) && AssetsAgreeOrGone(stored, l'.assets)
    decreases |txs|
  {
    hide AssetsAgreeOrGone, Apply, ValidLogic;
    if txs != [] {
      ApplyKeepsAssetsOrGone(c.id, l, txs[0], stored);
      ExecuteAllAssets(c, Apply(c.id, l, txs[0]).ledger, txs[1..], stored);
    }
  }

  lemma {:induction false} EndowAllHolds(accounts: map<Bytes, Account>, r: Registry, pubkeys: seq<Bytes>, id: Bytes)
    ensures Held(EndowAll(accounts, r, pubkeys).0, id) == Held(accounts, id)
    decreases |pubkeys|
  {
    hide Held;
    if pubkeys != [] {
      var account := GetOr(Find(accounts, pubkeys[0]), FRESH_ACCOUNT);
      HeldAfterPut(accounts, pubkeys[0], account.(balance := BOOT_STAKE), id);
      var (a, s) := Endow(accounts, r, pubkeys[0]);
      EndowAllHolds(a, s, pubkeys[1..], id);
    }
  }

  lemma DeliverAssets(c: Crypto, n: Node, b: Block, n': Node)
    requires HeadStored(n) && Next(c, n, Deliver(b), n') && AssetsAgreeOrGone(n.accounts, n.assets)
    ensures AssetsAgreeOrGone(n'.accounts, n'.assets)
  {
    AddBlockEffect(c, n, b, n'.root);
    ExecuteAllAssets(c, LedgerOf(n), b.transactions, n.accounts);
    if Passed(c, n, b) { AcceptedLedger(c, n, b, n'.root); } else { RefusedAssets(c, n, b, n'); }
    hide AddBlock, Accepted, Commits, AssetsAgreeOrGone, ExecuteAll, Passed, Refused, IndexAll, Accept;
  }

  lemma RefusedAssets(c: Crypto, n: Node, b: Block, n': Node)
    requires Refused(c, n, b, n')
    ensures n'.accounts == n.accounts && (n'.assets == n.assets || n'.assets == Executed(c, n, b).assets)
  {
    NotedKeepsLedger(n, b);
    hide ExecuteAll, Slash, Noted;
    if n' == n {
    } else if n' == n.(validators := Slash(n.validators, b.header.validator)) {
    } else if n' == Noted(n, b) {
    } else {
      assert n' == RolledBack(Noted(n, b), Executed(c, n, b));
    }
  }

  /** Until the process ends, an asset's stored holdings sum to its supply, or to nothing when its
      creation was rolled back. */
  lemma NextKeepsAssets(c: Crypto, n: Node, step: Step, n': Node)
    requires HeadStored(n) && Next(c, n, step, n') && !step.Reopen? && AssetsAgreeOrGone(n.accounts, n.assets)
    ensures AssetsAgreeOrGone(n'.accounts, n'.assets)
  {
    hide AddBlock, Accepted, Commits, EndowAll, Quorum, HasVoted, Held;
    if step.Deliver? {
      DeliverAssets(c, n, step.block, n');
    } else if step.Boot? {
      forall id ensures Held(n'.accounts, id) == Held(n.accounts, id) {
        EndowAllHolds(n.accounts, n.validators, step.pubkeys, id);
      }
    }
  }

  // ---------------------------------------------------------------------------------------
  // All invariants together
  // ---------------------------------------------------------------------------------------

  /** A run over well-hashed blocks within one process, without pruning. */
  ghost predicate Plainly(c: Crypto, step: Step)
  {
    Honest(c, step) && !step.PruneBefore? && !step.Reopen?
  }

  lemma NextKeepsGood(c: Crypto, n: Node, step: Step, n': Node, genesis: Bytes, length: nat)
    requires CollisionFree(c) && Good(c, n, genesis, length) && Next(c, n, step, n') && Plainly(c, step)
    ensures Good(c, n', genesis, length)
  {
    NextKeepsHead(c, n, step, n');
    NextKeepsSeen(c, n, step, n');
    NextKeepsDistinct(c, n, step, n');
    NextKeepsSigned(c, n, step, n');
    NextKeepsSound(c, n, step, n');
    NextKeepsBound(c, n, step, n');
    NextKeepsHeights(c, n, step, n');
    NextKeepsRooted(c, n, step, n', genesis);
    NextKeepsExact(c, n, step, n', length);
    NextKeepsAssets(c, n, step, n');
    hide *;
  }

  /** Every node reached from the first start is good. */
  lemma {:induction false} RunIsGood(c: Crypto, genesis: Block, states: seq<Node>, steps: seq<Step>, i: nat,
        length: nat)
    requires IsRun(c, states, steps) && i <= |steps| && CollisionFree(c) && WellHashed(c, genesis)
    requires states[0] == Restart(NO_TABLES, map[], genesis, None)
    requires forall k :: 0 <= k < i ==> Plainly(c, steps[k])
    ensures Good(c, states[i], genesis.hash, length)
  {
    hide Next, CollisionFree, Good, Plainly, Restart;
    if i == 0 {
      FirstStart(c, genesis, states[0], length);
    } else {
      RunIsGood(c, genesis, states, steps, i - 1, length);
      NextKeepsGood(c, states[i - 1], steps[i - 1], states[i], genesis.hash, length);
    }
  }

  // ---------------------------------------------------------------------------------------
  // Pruning
  // ---------------------------------------------------------------------------------------

  /** With an exact height index the number a pruning returns is the number of blocks it removes, all
      of them stored, none of them the head, and all with slots in the pruned range. */
  lemma PruneRemovesCounted(n: Node, target: U64)
    requires HeadStored(n) && HeightsPoint(n)
    ensures var gone := n.tables.blocks.Keys - Prune(n, target).tables.blocks.Keys;
            && |gone| == |DeletedHeights(n.tables, target, n.head)|
            && n.head !in gone
            && forall h :: h in gone ==> 1 <= n.tables.blocks[h].header.slot < target
  {
    var t := n.tables;
    var heights := DeletedHeights(t, target, n.head);
    PruneRemovesDoomed(n, target);
    SameSize(heights, t.heights, Doomed(t, target, n.head));
  }

  lemma PruneRemovesDoomed(n: Node, target: U64)
    requires HeightsPoint(n)
    ensures n.tables.blocks.Keys - Prune(n, target).tables.blocks.Keys == Doomed(n.tables, target, n.head)
    ensures Doomed(n.tables, target, n.head) == set h | h in DeletedHeights(n.tables, target, n.head) :: n.tables.heights[h]
  {
  }

  /** A map that is injective on a set keeps its size. */
  lemma {:induction false} SameSize(heights: set<U64>, index: map<U64, Bytes>, hashes: set<Bytes>)
    requires forall h :: h in heights ==> h in index
    requires forall g, h :: g in heights && h in heights && index[g] == index[h] ==> g == h
    requires hashes == set h | h in heights :: index[h]
    ensures |heights| == |hashes|
    decreases heights
  {
    if heights == {} {
      assert hashes == {};
    } else {
      var h :| h in heights;
      SameSize(heights - {h}, index, hashes - {index[h]});
    }
  }

  // ---------------------------------------------------------------------------------------
  // Commits that cannot panic
  // ---------------------------------------------------------------------------------------

  /** The trie is the canonical one of some content over keys of one length. */
  ghost predicate Uniform(root: Root<Account>, length: nat)
  {
    exists content :: Represents(root, content, length)
  }

  ghost predicate OneLength(keys: set<Bytes>, length: nat)
  {
    forall k :: k in keys ==> |k| == length
  }

  /** As long as all stored addresses have one length, the trie is uniform. */
  ghost predicate UniformWhileOneLength(n: Node, length: nat)
  {
    OneLength(n.accounts.Keys, length) ==> Uniform(n.root, length)
  }

  lemma CommitKeepsUniform(root: Root<Account>, before: map<Bytes, Account>, after: map<Bytes, Account>,
        root': Root<Account>, length: nat)
    requires Uniform(root, length) && OneLength(after.Keys, length) && Commits(root, before, after, root')
    ensures Uniform(root', length)
  {
    hide Represents;
    var content :| Represents(root, content, length);
    var overlay, order :| after == before + overlay && CommitsVia(root, overlay, order, root');
    var ops := Entries(order, overlay);
    assert forall i :: 0 <= i < |ops| ==> ops[i].0 in order;
    InsertAllRepresents(root, content, ops, length);
  }

  lemma DeliverCommits(c: Crypto, n: Node, b: Block, n': Node)
    requires HeadStored(n) && Next(c, n, Deliver(b), n')
    ensures Accepted(c, n, b) ==> Commits(n.root, n.accounts, n'.accounts, n'.root)
    ensures !Accepted(c, n, b) ==> n'.root == n.root && n'.accounts == n.accounts
  {
    hide AddBlock, Accepted, Commits, ExecuteAll;
    BlockAtomicity(c, n, b, n'.root);
  }

  /** Accounts and trie only ever change together, by a commit or a rebuild. */
  lemma StepCommits(c: Crypto, n: Node, step: Step, n': Node)
    requires HeadStored(n) && Next(c, n, step, n')
    ensures || (n'.root == n.root && n'.accounts == n.accounts)
            || Commits(n.root, n.accounts, n'.accounts, n'.root)
            || Commits(None, map[], n'.accounts, n'.root)
  {
    hide AddBlock, Accepted, EndowAll, AddVote, Commits, Executed;
    if step.Deliver? {
      DeliverCommits(c, n, step.block, n');
    } else if step.Cast? {
      CastFrame(c, n, step.vote);
    }
  }

  lemma NextKeepsUniform(c: Crypto, n: Node, step: Step, n': Node, length: nat)
    requires HeadStored(n) && Next(c, n, step, n') && UniformWhileOneLength(n, length)
    ensures UniformWhileOneLength(n', length)
  {
    StepCommits(c, n, step, n');
    hide Next, Commits, Uniform, HeadStored;
    if OneLength(n'.accounts.Keys, length) {
      if Commits(n.root, n.accounts, n'.accounts, n'.root) {
        FewerBefore(n.root, n.accounts, n'.accounts, n'.root, length);
        CommitKeepsUniform(n.root, n.accounts, n'.accounts, n'.root, length);
      } else if Commits(None, map[], n'.accounts, n'.root) {
        EmptyIsUniform(length);
        CommitKeepsUniform(None, map[], n'.accounts, n'.root, length);
      }
    }
  }

  lemma EmptyIsUniform(length: nat)
    ensures Uniform(None, length)
  {
    assert Represents<Account>(None, Empty(), length);
  }

  lemma FewerBefore(root: Root<Account>, before: map<Bytes, Account>, after: map<Bytes, Account>,
        root': Root<Account>, length: nat)
    requires Commits(root, before, after, root') && OneLength(after.Keys, length)
    ensures OneLength(before.Keys, length)
  {
    var overlay, order :| after == before + overlay && CommitsVia(root, overlay, order, root');
  }

  /** In every run, while addresses have one length, no commit of accounts under such addresses can
      index out of range, whatever order it takes. */
  lemma RunNeverPanics(c: Crypto, states: seq<Node>, steps: seq<Step>, i: nat, keys: set<Bytes>,
        length: nat)
    requires IsRun(c, states, steps) && i <= |steps| && UniformWhileOneLength(states[0], length)
    requires OneLength(states[i].accounts.Keys, length) && OneLength(keys, length)
    ensures UniformWhileOneLength(states[i], length) && NeverPanics(states[i].root, keys)
  {
    RunKeepsUniform(c, states, steps, i, length);
    hide IsRun, Represents, NeverPanics;
    var content :| Represents(states[i].root, content, length);
    UniformNeverPanics(states[i].root, content, keys, length);
  }

  lemma {:induction false} RunKeepsUniform(c: Crypto, states: seq<Node>, steps: seq<Step>, i: nat, length: nat)
    requires IsRun(c, states, steps) && i <= |steps| && UniformWhileOneLength(states[0], length)
    ensures UniformWhileOneLength(states[i], length)
  {
    hide Next, UniformWhileOneLength;
    if i > 0 {
      RunKeepsUniform(c, states, steps, i - 1, length);
      NextKeepsUniform(c, states[i - 1], steps[i - 1], states[i], length);
    }
  }

  // ---------------------------------------------------------------------------------------
  // The indexes of an accepted block
  // ---------------------------------------------------------------------------------------

  /** The hashes a list of transactions adds to the log of an address: as sender, then as receiver. */
  function Mentions(c: Crypto, txs: seq<Transaction>, address: Bytes): seq<Bytes>
  {
    if txs == [] then []
    else
      var entry := [Hex(c.txHash(txs[0]))];
      (if Hex(txs[0].sender) == address then entry else [])
      + (if Hex(txs[0].receiver) == address then entry else [])
      + Mentions(c, txs[1..], address)
  }

  function LogOf(n: Node, address: Bytes): seq<Bytes>
  {
    GetOr(Find(n.tables.history, address), [])
  }

  predicate Lists(c: Crypto, txs: seq<Transaction>, hash: Bytes)
  {
    exists k :: 0 <= k < |txs| && Hex(c.txHash(txs[k])) == hash
  }

  lemma IndexOneIndexes(c: Crypto, n: Node, tx: Transaction, epoch: U64, blockHash: Bytes, address: Bytes, hash: Bytes)
    ensures var n' := IndexTransaction(c, UpdateValidators(n, tx, epoch), tx, blockHash);
            && LogOf(n', address) == LogOf(n, address) + Mentions(c, [tx], address)
            && Find(n'.tables.txIndex, hash) == if Hex(c.txHash(tx)) == hash then Some(blockHash) else Find(n.tables.txIndex, hash)
  {
    hide Hex, Register, Unregister, ReadThrough;
    assert UpdateValidators(n, tx, epoch).tables == n.tables by {
      if tx.data.RegisterValidator? {
      } else if tx.data.UnregisterValidator? {
      }
    }
    assert [tx][1..] == [];
  }

  /** An accepted block appends to the log of every address the hashes of its transactions that name the
      address, in order, and points exactly their hashes to itself. */
  lemma {:induction false} IndexAllIndexes(c: Crypto, n: Node, b: Block, txs: seq<Transaction>, address: Bytes,
        hash: Bytes)
    ensures var n' := IndexAll(c, n, b, txs);
            && LogOf(n', address) == LogOf(n, address) + Mentions(c, txs, address)
            && Find(n'.tables.txIndex, hash) == if Lists(c, txs, hash) then Some(b.hash) else Find(n.tables.txIndex, hash)
    decreases |txs|
  {
    hide Hex, UpdateValidators, IndexTransaction, LogOf;
    if txs != [] {
      IndexOneIndexes(c, n, txs[0], b.header.epoch, b.hash, address, hash);
      var n1 := IndexTransaction(c, UpdateValidators(n, txs[0], b.header.epoch), txs[0], b.hash);
      IndexAllIndexes(c, n1, b, txs[1..], address, hash);
      assert [txs[0]][1..] == [];
      ListsFirst(c, txs, hash);
    }
  }

  lemma ListsFirst(c: Crypto, txs: seq<Transaction>, hash: Bytes)
    requires txs != []
    ensures Lists(c, txs, hash) <==> Hex(c.txHash(txs[0])) == hash || Lists(c, txs[1..], hash)
  {
    hide Hex;
    if Lists(c, txs[1..], hash) {
      var k :| 0 <= k < |txs| - 1 && Hex(c.txHash(txs[1..][k])) == hash;
      assert Hex(c.txHash(txs[k + 1])) == hash;
    }
    if Lists(c, txs, hash) && Hex(c.txHash(txs[0])) != hash {
      var k :| 0 <= k < |txs| && Hex(c.txHash(txs[k])) == hash;
      assert Hex(c.txHash(txs[1..][k - 1])) == hash;
    }
  }
}
