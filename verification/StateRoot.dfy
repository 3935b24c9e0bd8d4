/** The state root is a function of the stored accounts, along commits and across restarts. */
module StateRoot {
  import opened Base
  import opened TrieModel
  import opened TrieContent
  import opened Ledger
  import opened Consensus
  import opened Node
  import opened Invariants

  /** Addresses of `length` bytes, no two of which differ only in the last nibble. */
  ghost predicate GoodAddresses(keys: set<Bytes>, length: nat)
  {
    Spread(keys) && forall k :: k in keys ==> |k| == length
  }

  /** The trie under `root` holds exactly the accounts. */
  ghost predicate Mirrors(root: Root<Account>, accounts: map<Bytes, Account>, length: nat)
  {
    Represents(root, Content(accounts, map[]), length)
  }

  lemma EmptyMirrors(length: nat)
    ensures Mirrors(None, map[], length)
  {
  }

  lemma {:induction false} PlainOfEntries<V>(m: map<Bytes, V>, overlay: map<Bytes, V>, order: seq<Bytes>)
    requires forall k :: k in order ==> k in overlay
    ensures Plain(m, Entries(order, overlay)) == m + map k | k in order :: overlay[k]
    decreases |order|
  {
    var all := map k | k in order :: overlay[k];
    if order == [] {
      assert all == map[];
    } else {
      assert Entries(order, overlay)[1..] == Entries(order[1..], overlay);
      PlainOfEntries(m[order[0] := overlay[order[0]]], overlay, order[1..]);
      var part := map k | k in order[1..] :: overlay[k];
      assert m[order[0] := overlay[order[0]]] + part == m + all;
    }
  }

  /** Committing an overlay in any order takes the trie of the old accounts to the trie of the new ones,
      and never panics. */
  lemma CommitInAnyOrder(root: Root<Account>, before: map<Bytes, Account>, overlay: map<Bytes, Account>,
        order: seq<Bytes>, length: nat)
    requires Mirrors(root, before, length) && GoodAddresses((before + overlay).Keys, length)
    requires IsOrdering(order, overlay.Keys)
    ensures CanInsertAll(root, Entries(order, overlay))
    ensures Mirrors(InsertAll(root, Entries(order, overlay)), before + overlay, length)
  {
    hide Represents, InsertAll, CanInsertAll;
    var ops := Entries(order, overlay);
    assert OfLength(ops, length) by { assert forall i :: 0 <= i < |ops| ==> ops[i].0 in order; }
    assert before.Keys + KeysOf(ops) == (before + overlay).Keys by { KeysOfEntries(order, overlay); }
    InsertAllRepresents(root, Content(before, map[]), ops, length);
    SpreadNeverSpills(before, ops);
    PlainOfEntries(before, overlay, order);
    assert (map k | k in order :: overlay[k]) == overlay;
  }

  lemma KeysOfEntries(order: seq<Bytes>, overlay: map<Bytes, Account>)
    requires IsOrdering(order, overlay.Keys)
    ensures KeysOf(Entries(order, overlay)) == overlay.Keys
  {
    var ops := Entries(order, overlay);
    forall k | k in overlay.Keys ensures k in KeysOf(ops) {
      assert k in order;
      var i :| 0 <= i < |order| && order[i] == k;
      assert ops[i].0 == k;
    }
    forall k | k in KeysOf(ops) ensures k in overlay.Keys {
      var i :| 0 <= i < |ops| && ops[i].0 == k;
      assert order[i] in order;
    }
  }

  lemma CommitsMirrors(root: Root<Account>, before: map<Bytes, Account>, after: map<Bytes, Account>,
        root': Root<Account>, length: nat)
    requires Mirrors(root, before, length) && GoodAddresses(after.Keys, length) && Commits(root, before, after, root')
    ensures Mirrors(root', after, length)
  {
    var overlay, order :| after == before + overlay && CommitsVia(root, overlay, order, root');
    CommitInAnyOrder(root, before, overlay, order, length);
    hide Represents;
  }

  /** As long as the addresses are good, the trie holds exactly the stored accounts. */
  ghost predicate RootExact(n: Node, length: nat)
  {
    GoodAddresses(n.accounts.Keys, length) ==> Mirrors(n.root, n.accounts, length)
  }

  lemma FewerAddresses(keys: set<Bytes>, more: set<Bytes>, length: nat)
    requires GoodAddresses(more, length) && keys <= more
    ensures GoodAddresses(keys, length)
  {
  }

  lemma CommitKeepsExact(n: Node, after: map<Bytes, Account>, n': Node, length: nat)
    requires RootExact(n, length) && n'.accounts == after && Commits(n.root, n.accounts, after, n'.root)
    ensures RootExact(n', length)
  {
    hide Represents, GoodAddresses;
    if GoodAddresses(after.Keys, length) {
      var overlay, order :| after == n.accounts + overlay && CommitsVia(n.root, overlay, order, n'.root);
      FewerAddresses(n.accounts.Keys, after.Keys, length);
      CommitsMirrors(n.root, n.accounts, after, n'.root, length);
    }
  }

  /** Every step keeps the trie exact: commits of blocks and of start-up in any order, and the rebuild
      of a restart. */
  lemma NextKeepsExact(c: Crypto, n: Node, step: Step, n': Node, length: nat)
    requires HeadStored(n) && Next(c, n, step, n') && RootExact(n, length)
    ensures RootExact(n', length)
  {
    hide AddBlock, Commits, Accepted, EndowAll, RootExact, Executed;
    if step.Deliver? {
      DeliverKeepsExact(c, n, step.block, n', length);
    } else if step.Cast? {
      SameExact(n, n', length);
    } else if step.PruneBefore? {
      SameExact(n, n', length);
    } else if step.Reopen? {
      RebuildIsExact(n'.accounts, n', length);
    } else {
      CommitKeepsExact(n, EndowAll(n.accounts, n.validators, step.pubkeys).0, n', length);
    }
  }

  lemma SameExact(n: Node, n': Node, length: nat)
    requires n'.root == n.root && n'.accounts == n.accounts && RootExact(n, length)
    ensures RootExact(n', length)
  {
  }

  lemma DeliverKeepsExact(c: Crypto, n: Node, b: Block, n': Node, length: nat)
    requires HeadStored(n) && Next(c, n, Deliver(b), n') && RootExact(n, length)
    ensures RootExact(n', length)
  {
    hide AddBlock, Commits, Accepted, RootExact, ExecuteAll;
    BlockAtomicity(c, n, b, n'.root);
    if Accepted(c, n, b) {
      CommitKeepsExact(n, Executed(c, n, b).accounts, n', length);
    } else {
      SameExact(n, n', length);
    }
  }

  /** The trie `State::new` rebuilds is the trie the commits maintained. */
  lemma RebuildIsExact(accounts: map<Bytes, Account>, n: Node, length: nat)
    requires n.accounts == accounts && Commits(None, map[], accounts, n.root)
    ensures RootExact(n, length)
  {
    hide Represents;
    EmptyMirrors(length);
    if GoodAddresses(accounts.Keys, length) { CommitsMirrors(None, map[], accounts, n.root, length); }
  }

  lemma {:induction false} RunKeepsExact(c: Crypto, states: seq<Node>, steps: seq<Step>, i: nat, length: nat)
    requires IsRun(c, states, steps) && i <= |steps| && RootExact(states[0], length)
    ensures RootExact(states[i], length)
  {
    hide Next, RootExact;
    if i > 0 {
      RunKeepsExact(c, states, steps, i - 1, length);
      NextKeepsExact(c, states[i - 1], steps[i - 1], states[i], length);
    }
  }

  /** Root agreement: nodes with exact tries have the same root exactly when they store the same accounts. */
  lemma RootIffAccounts(n: Node, m: Node, length: nat)
    requires RootExact(n, length) && RootExact(m, length)
    requires GoodAddresses(n.accounts.Keys, length) && GoodAddresses(m.accounts.Keys, length)
    ensures n.root == m.root <==> n.accounts == m.accounts
  {
    RootIffContent(n.root, Content(n.accounts, map[]), m.root, Content(m.accounts, map[]), length);
    hide Represents, GoodAddresses;
  }

  /** Two nodes that accept the same block with a state root stored the same accounts before it. */
  lemma SameBlockSameAccounts(c: Crypto, n: Node, m: Node, b: Block, length: nat)
    requires HeadStored(n) && HeadStored(m) && Accepted(c, n, b) && Accepted(c, m, b) && b.header.stateRoot.Some?
    requires RootExact(n, length) && RootExact(m, length)
    requires GoodAddresses(n.accounts.Keys, length) && GoodAddresses(m.accounts.Keys, length)
    ensures n.accounts == m.accounts
  {
    AddBlockEffect(c, n, b, None);
    AddBlockEffect(c, m, b, None);
    RootIffAccounts(n, m, length);
    hide AddBlock, Accepted, Validate, ExecuteAll, SeenHeader, RootExact, GoodAddresses;
  }
}
