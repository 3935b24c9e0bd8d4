/** What roll-backs do to the agreement of the registries with the accounts, exactly. */
module Rollback {
  import opened Base
  import opened Ledger
  import opened Holdings
  import opened Consensus
  import opened Node
  import opened Invariants
  import opened Inflation
  import Runs
  import TrieModel

  // ---------------------------------------------------------------------------------------
  // Assets
  // ---------------------------------------------------------------------------------------

  /** An executed transaction of the list created an asset. */
  predicate CreatesAsset(c: Crypto, l: Ledger, txs: seq<Transaction>)
    decreases |txs|
  {
    txs != [] && Runnable(c, txs[0]) && (
      var o := Apply(c.id, l, txs[0]);
      o.Ok() && (txs[0].data.CreateAsset? || CreatesAsset(c, o.ledger, txs[1..])))
  }

  /** An asset with a supply that was not there before. */
  ghost predicate HasNewAsset(before: map<Bytes, Asset>, after: map<Bytes, Asset>)
  {
    exists id :: id !in before && id in after && after[id].totalSupply > 0
  }

  ghost predicate KeepsAssets(before: map<Bytes, Asset>, after: map<Bytes, Asset>)
  {
    forall id :: id in before ==> id in after && after[id] == before[id]
  }

  lemma ApplyAssets(c: Crypto, l: Ledger, tx: Transaction)
    requires Runnable(c, tx)
    ensures var o := Apply(c.id, l, tx);
            && KeepsAssets(l.assets, o.ledger.assets)
            && (if o.Ok() && tx.data.CreateAsset? then HasNewAsset(l.assets, o.ledger.assets)
                else o.ledger.assets == l.assets)
  {
    if tx.data.CreateAsset? {
      CreateAssets(c, l, tx);
    } else {
      RegistryFrame(c.id, l, tx);
      hide Execute, ValidLogic, NonceOf;
    }
  }

  lemma CreateAssets(c: Crypto, l: Ledger, tx: Transaction)
    requires Runnable(c, tx) && tx.data.CreateAsset?
    ensures var o := Apply(c.id, l, tx);
            && KeepsAssets(l.assets, o.ledger.assets)
            && (if o.Ok() then HasNewAsset(l.assets, o.ledger.assets) else o.ledger.assets == l.assets)
  {
    var assetId := c.id(tx.sender, tx.nonce, tx.data.name);
    var o := Apply(c.id, l, tx);
    if o.Ok() { assert assetId !in l.assets && assetId in o.ledger.assets; }
  }

  /** The registry of assets after a list, whether it succeeds or fails. */
  lemma {:induction false} ExecuteAllCreates(c: Crypto, l: Ledger, txs: seq<Transaction>)
    ensures var l' := ExecuteAll(c, l, txs).ledger;
            && KeepsAssets(l.assets, l'.assets)
            && (if CreatesAsset(c, l, txs) then HasNewAsset(l.assets, l'.assets) else l'.assets == l.assets)
    decreases |txs|
  {
    hide Apply, ValidLogic;
    if txs != [] && Runnable(c, txs[0]) {
      ApplyAssets(c, l, txs[0]);
      if Apply(c.id, l, txs[0]).Ok() { ExecuteAllCreates(c, Apply(c.id, l, txs[0]).ledger, txs[1..]); }
    }
  }

  /** A block refused after its execution keeps assets in agreement exactly when none of its executed
      transactions created one. */
  lemma RolledBackAssetsIff(c: Crypto, n: Node, b: Block, root': TrieModel.Root<Account>)
    requires n.head in n.tables.blocks && ReachesExecution(c, n, b) && !Accepted(c, n, b)
    requires AssetsAgree(n.accounts, n.assets)
    ensures var n' := AddBlock(c, n, b, root').node;
            AssetsAgree(n'.accounts, n'.assets) <==> !CreatesAsset(c, LedgerOf(n), b.transactions)
  {
    hide AddBlock, Accepted, ReachesExecution, ExecuteAll, CreatesAsset, Held;
    RolledBackFields(c, n, b, root');
    ExecuteAllCreates(c, LedgerOf(n), b.transactions);
    var after := Executed(c, n, b).assets;
    if CreatesAsset(c, LedgerOf(n), b.transactions) {
      var id :| id !in n.assets && id in after && after[id].totalSupply > 0;
      assert Held(n.accounts, id) == SupplyOf(n.assets, id) != SupplyOf(after, id);
    }
  }

  lemma {:induction false} ExecuteAllKeepsAssets(c: Crypto, l: Ledger, txs: seq<Transaction>)
    requires AssetsAgree(l.accounts, l.assets)
    ensures var l' := ExecuteAll(c, l, txs).ledger; AssetsAgree(l'.accounts, l'.assets)
    decreases |txs|
  {
    hide AssetsAgree, Apply, ValidLogic;
    if txs != [] {
      ApplyKeepsAssets(c.id, l, txs[0]);
      ExecuteAllKeepsAssets(c, Apply(c.id, l, txs[0]).ledger, txs[1..]);
    }
  }

  lemma DeliveryKeepsAssetsIff(c: Crypto, n: Node, b: Block, n': Node)
    requires HeadStored(n) && Next(c, n, Deliver(b), n') && AssetsAgree(n.accounts, n.assets)
    ensures AssetsAgree(n'.accounts, n'.assets) <==>
      !(ReachesExecution(c, n, b) && !Accepted(c, n, b) && CreatesAsset(c, LedgerOf(n), b.transactions))
  {
    hide AddBlock, Accepted, ReachesExecution, ExecuteAll, CreatesAsset, AssetsAgree, Commits;
    if Accepted(c, n, b) {
      AcceptedLedger(c, n, b, n'.root);
      ExecuteAllKeepsAssets(c, LedgerOf(n), b.transactions);
    } else if ReachesExecution(c, n, b) {
      RolledBackAssetsIff(c, n, b, n'.root);
    } else {
      UnexecutedFields(c, n, b, n'.root);
    }
  }

  /** Along a run of one process a step keeps assets in agreement exactly when it is not the delivery of a
      block that is refused after its executed transactions created an asset. */
  lemma NextKeepsAssetsIff(c: Crypto, n: Node, step: Step, n': Node)
    requires HeadStored(n) && Next(c, n, step, n') && !step.Reopen? && AssetsAgree(n.accounts, n.assets)
    ensures AssetsAgree(n'.accounts, n'.assets) <==>
      !(step.Deliver? && ReachesExecution(c, n, step.block) && !Accepted(c, n, step.block)
        && CreatesAsset(c, LedgerOf(n), step.block.transactions))
  {
    hide AddBlock, AddVote, Accepted, ReachesExecution, ExecuteAll, CreatesAsset, Held, Commits, EndowAll;
    if step.Deliver? {
      DeliveryKeepsAssetsIff(c, n, step.block, n');
    } else if step.Boot? {
      forall id ensures Held(n'.accounts, id) == Held(n.accounts, id) {
        Runs.EndowAllHolds(n.accounts, n.validators, step.pubkeys, id);
      }
    } else {
      if step.Cast? { CastFrame(c, n, step.vote); }
      assert n'.accounts == n.accounts && n'.assets == n.assets;
    }
  }

  // ---------------------------------------------------------------------------------------
  // Items
  // ---------------------------------------------------------------------------------------

  /** Whom the transaction gives an item to, if it succeeds. */
  function ReceiverOf(tx: Transaction, collection: Bytes, item: U64): Option<Bytes>
  {
    if tx.data.MintNft? && tx.data.collectionId == collection && tx.data.itemId == item then Some(tx.data.recipient)
    else if tx.data.TransferNft? && tx.data.collectionId == collection && tx.data.itemId == item then Some(tx.receiver)
    else None
  }

  /** Whom the executed transactions of a list gave an item to last. */
  function LastReceiver(c: Crypto, l: Ledger, txs: seq<Transaction>, collection: Bytes, item: U64): Option<Bytes>
    decreases |txs|
  {
    if txs == [] || !Runnable(c, txs[0]) then None
    else
      var o := Apply(c.id, l, txs[0]);
      if !o.Ok() then None
      else
        var later := LastReceiver(c, o.ledger, txs[1..], collection, item);
        if later.Some? then later else ReceiverOf(txs[0], collection, item)
  }

  lemma ApplyOwner(id: IdHash, l: Ledger, tx: Transaction, collection: Bytes, item: U64)
    requires ItemsAgree(l)
    ensures var o := Apply(id, l, tx);
            OwnerOf(o.ledger.collections, collection, item) ==
              if o.Ok() && ReceiverOf(tx, collection, item).Some? then ReceiverOf(tx, collection, item)
              else OwnerOf(l.collections, collection, item)
  {
    if tx.nonce == NonceOf(l, tx.sender) {
      if MovesItems(tx) {
        MoveOwner(id, l, tx, collection, item);
      } else {
        OwnersFrame(id, l, tx, collection, item);
      }
    }
    hide Execute, OwnerOf, ItemsAgree, NonceOf;
  }

  lemma MoveOwner(id: IdHash, l: Ledger, tx: Transaction, collection: Bytes, item: U64)
    requires ItemsAgree(l) && MovesItems(tx)
    ensures var o := Execute(id, l, tx);
            OwnerOf(o.ledger.collections, collection, item) ==
              if o.Ok() && ReceiverOf(tx, collection, item).Some? then ReceiverOf(tx, collection, item)
              else OwnerOf(l.collections, collection, item)
  {
    hide AgreesAt, Listed, Unlisted;
    if tx.data.TransferNft? && !MoveNft(l, tx.sender, tx.receiver, tx.data.collectionId, tx.data.itemId).Ok() {
      assert AgreesAt(l, tx.sender, tx.data.collectionId, tx.data.itemId);
      MoveNftFailsClean(l, tx.sender, tx.receiver, tx.data.collectionId, tx.data.itemId);
    }
  }

  /** The registered owner of an item after a list, whether it succeeds or fails. */
  lemma {:induction false} OwnerAfter(c: Crypto, l: Ledger, txs: seq<Transaction>, collection: Bytes, item: U64)
    requires ItemsAgree(l)
    ensures OwnerOf(ExecuteAll(c, l, txs).ledger.collections, collection, item) ==
      var last := LastReceiver(c, l, txs, collection, item);
      if last.Some? then last else OwnerOf(l.collections, collection, item)
    decreases |txs|
  {
    hide Apply, ValidLogic, OwnerOf, ReceiverOf, ItemsAgree;
    if txs != [] && Runnable(c, txs[0]) {
      ApplyOwner(c.id, l, txs[0], collection, item);
      ApplyKeepsItems(c.id, l, txs[0]);
      if Apply(c.id, l, txs[0]).Ok() { OwnerAfter(c, Apply(c.id, l, txs[0]).ledger, txs[1..], collection, item); }
    }
  }

  /** Every item the executed transactions moved ended with its first owner, and none was minted. */
  ghost predicate ItemsReturn(c: Crypto, l: Ledger, txs: seq<Transaction>)
  {
    forall collection, item :: LastReceiver(c, l, txs, collection, item) in {None, OwnerOf(l.collections, collection, item)}
  }

  /** Over the same accounts, two registries agree with the listings only if they name the same owners. */
  lemma SameOwnersIff(l: Ledger, m: Ledger)
    requires m.accounts == l.accounts && ItemsAgree(l)
    ensures ItemsAgree(m) <==>
      forall collection, item :: OwnerOf(m.collections, collection, item) == OwnerOf(l.collections, collection, item)
  {
    hide Listings;
    assert forall a :: Current(m, a) == Current(l, a);
    if ItemsAgree(m) {
      forall collection, item
        ensures OwnerOf(m.collections, collection, item) == OwnerOf(l.collections, collection, item)
      {
        SameOwner(l, m, collection, item);
      }
    } else {
      var a, collection, item :| !AgreesAt(m, a, collection, item);
      assert AgreesAt(l, a, collection, item);
    }
  }

  lemma SameOwner(l: Ledger, m: Ledger, collection: Bytes, item: U64)
    requires m.accounts == l.accounts && ItemsAgree(l) && ItemsAgree(m)
    ensures OwnerOf(m.collections, collection, item) == OwnerOf(l.collections, collection, item)
  {
    hide Listings, OwnerOf;
    var p, q := OwnerOf(l.collections, collection, item), OwnerOf(m.collections, collection, item);
    if p.Some? { assert AgreesAt(l, p.value, collection, item) && AgreesAt(m, p.value, collection, item); }
    if q.Some? { assert AgreesAt(l, q.value, collection, item) && AgreesAt(m, q.value, collection, item); }
  }

  /** A block refused after its execution keeps owners and listings in agreement exactly when its executed
      transactions minted nothing and every item they moved is back with its owner. */
  lemma RolledBackItemsIff(c: Crypto, n: Node, b: Block, root': TrieModel.Root<Account>)
    requires n.head in n.tables.blocks && ReachesExecution(c, n, b) && !Accepted(c, n, b) && ItemsAgree(LedgerOf(n))
    ensures ItemsAgree(LedgerOf(AddBlock(c, n, b, root').node)) <==> ItemsReturn(c, LedgerOf(n), b.transactions)
  {
    hide AddBlock, Accepted, ReachesExecution, ExecuteAll, LastReceiver, ItemsAgree, OwnerOf;
    var l, m := LedgerOf(n), LedgerOf(AddBlock(c, n, b, root').node);
    RolledBackFields(c, n, b, root');
    SameOwnersIff(l, m);
    forall collection, item
      ensures OwnerOf(m.collections, collection, item) ==
        var last := LastReceiver(c, l, b.transactions, collection, item);
        if last.Some? then last else OwnerOf(l.collections, collection, item)
    {
      OwnerAfter(c, l, b.transactions, collection, item);
    }
  }
}
