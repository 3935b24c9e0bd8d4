/** Blocks on which the differences between code and intent show. */
module Witnesses {
  import opened Base
  import opened TrieModel
  import opened Ledger
  import opened Holdings
  import opened Validators
  import opened Merkle
  import opened Consensus
  import opened Node
  import opened Invariants
  import opened Safety
  import opened Inflation
  import opened Rollback
  import Totals

  /** Every signature and proof holds. */
  const LENIENT: Crypto := Crypto((a, n, s) => [9], t => [7], t => true, v => true, h => [0], (h, p) => true)

  /** No VRF proof holds. */
  const STRICT: Crypto := LENIENT.(vrfValid := (h, p) => false)

  const GENESIS: Block := Block(Header([], 0, 0, [], [], [], [], None, None, [], 0), [], [0])

  const REGISTRY: Registry := Registry(map[[2] := ValidatorInfo([2], 1000, 0, false)], 1000)

  const ALICE: Bytes := [1]
  const BOB: Bytes := [3]
  const CAROL: Bytes := [4]

  /** A node at genesis with one validator. */
  function NodeWith(accounts: map<Bytes, Account>, collections: map<Bytes, Collection>): Node
  {
    Node(Tables(map[[0] := GENESIS], map[], Some([0]), map[], map[], map[], map[]),
         accounts, map[], map[], collections, map[], None, REGISTRY, map[], map[], [0], [0])
  }

  /** A block of the validator on the genesis. */
  function BlockOf(txs: seq<Transaction>, hash: Bytes): Block
  {
    Block(Header([0], 1, 0, [0], [], [2], [], None, MerkleRoot(TxHashes(LENIENT, txs)), [], 0), txs, hash)
  }

  function By(sender: Bytes, receiver: Bytes, nonce: U64, data: TransactionData): Transaction
  {
    Transaction(sender, receiver, nonce, data, [])
  }

  /** More than the sender of any example has. */
  const TOO_MUCH: Transaction := By(ALICE, BOB, 1, NativeTransfer(100))

  lemma Reaches(accounts: map<Bytes, Account>, collections: map<Bytes, Collection>, txs: seq<Transaction>)
    ensures ReachesExecution(LENIENT, NodeWith(accounts, collections), BlockOf(txs, [1]))
  {
    hide MerkleRoot, TxHashes;
    assert LittleEndian([0], 8) == 0 by { assert LittleEndian([], 7) == 0; }
  }

  /** A transaction, and then one that fails. */
  lemma FirstThenFail(l: Ledger, tx: Transaction)
    requires Runnable(LENIENT, tx) && Apply(LENIENT.id, l, tx).Ok()
    requires Apply(LENIENT.id, Apply(LENIENT.id, l, tx).ledger, TOO_MUCH).error == Some(InsufficientFunds)
    ensures !ExecuteAll(LENIENT, l, [tx, TOO_MUCH]).Ok()
    ensures Opened(LENIENT, l, [tx, TOO_MUCH]) == OpenedBy(tx)
    ensures Closed(LENIENT, l, [tx, TOO_MUCH]) == ClosedBy(l, tx)
    ensures CreatesAsset(LENIENT, l, [tx, TOO_MUCH]) <==> tx.data.CreateAsset?
    ensures forall collection, item ::
      LastReceiver(LENIENT, l, [tx, TOO_MUCH], collection, item) == ReceiverOf(tx, collection, item)
  {
    hide Apply;
    assert [tx, TOO_MUCH][1..] == [TOO_MUCH];
    assert Runnable(LENIENT, TOO_MUCH);
  }

  lemma RefusedAfterFirst(accounts: map<Bytes, Account>, collections: map<Bytes, Collection>, tx: Transaction)
    requires var l := Ledger(accounts, map[], collections, map[]);
             && Runnable(LENIENT, tx) && Apply(LENIENT.id, l, tx).Ok()
             && Apply(LENIENT.id, Apply(LENIENT.id, l, tx).ledger, TOO_MUCH).error == Some(InsufficientFunds)
    ensures var n, b := NodeWith(accounts, collections), BlockOf([tx, TOO_MUCH], [1]);
            ReachesExecution(LENIENT, n, b) && !Accepted(LENIENT, n, b)
  {
    var n, b := NodeWith(accounts, collections), BlockOf([tx, TOO_MUCH], [1]);
    Reaches(accounts, collections, [tx, TOO_MUCH]);
    FirstThenFail(LedgerOf(n), tx);
    AddBlockEffect(LENIENT, n, b, None);
    hide *;
  }

  // ---------------------------------------------------------------------------------------
  // Channels
  // ---------------------------------------------------------------------------------------

  const RICH: Account := FRESH_ACCOUNT.(balance := 10)
  const OPENING: Transaction := By(ALICE, [], 0, OpenChannel(BOB, 5, 0))

  /** A refused block that creates wealth: the deposit is given back and the channel stays open. */
  lemma RefusedBlockCreatesWealth()
    ensures var n, b := NodeWith(map[ALICE := RICH], map[]), BlockOf([OPENING, TOO_MUCH], [1]);
            && !Accepted(LENIENT, n, b)
            && Wealth(AddBlock(LENIENT, n, b, None).node) == Wealth(n) + 5
  {
    var n, b := NodeWith(map[ALICE := RICH], map[]), BlockOf([OPENING, TOO_MUCH], [1]);
    OpeningThenFail();
    RefusedAfterFirst(n.accounts, n.collections, OPENING);
    FirstThenFail(LedgerOf(n), OPENING);
    RolledBackWealth(LENIENT, n, b, None);
    hide Wealth, AddBlock, Accepted, ReachesExecution, Opened, Closed, Apply;
  }

  lemma OpeningThenFail()
    ensures var l := Ledger(map[ALICE := RICH], map[], map[], map[]);
            && Apply(LENIENT.id, l, OPENING).Ok()
            && Apply(LENIENT.id, Apply(LENIENT.id, l, OPENING).ledger, TOO_MUCH).error == Some(InsufficientFunds)
  {
  }

  // ---------------------------------------------------------------------------------------
  // Assets
  // ---------------------------------------------------------------------------------------

  const CREATION: Transaction := By(ALICE, [], 0, CreateAsset([5], [5], 7, 0, []))

  /** A refused block that leaves an asset nobody holds. */
  lemma RefusedBlockLeavesAsset()
    ensures var n, b := NodeWith(map[ALICE := RICH], map[]), BlockOf([CREATION, TOO_MUCH], [1]);
            var n' := AddBlock(LENIENT, n, b, None).node;
            AssetsAgree(n.accounts, n.assets) && !Accepted(LENIENT, n, b) && !AssetsAgree(n'.accounts, n'.assets)
  {
    var n, b := NodeWith(map[ALICE := RICH], map[]), BlockOf([CREATION, TOO_MUCH], [1]);
    CreationThenFail();
    RefusedAfterFirst(n.accounts, n.collections, CREATION);
    FirstThenFail(LedgerOf(n), CREATION);
    NothingHeld();
    RolledBackAssetsIff(LENIENT, n, b, None);
    hide AddBlock, Accepted, ReachesExecution, CreatesAsset, Apply, AssetsAgree;
  }

  lemma CreationThenFail()
    ensures var l := Ledger(map[ALICE := RICH], map[], map[], map[]);
            && Apply(LENIENT.id, l, CREATION).Ok()
            && Apply(LENIENT.id, Apply(LENIENT.id, l, CREATION).ledger, TOO_MUCH).error == Some(InsufficientFunds)
  {
  }

  lemma NothingHeld()
    ensures AssetsAgree(map[ALICE := RICH], map[])
  {
    hide Held;
    forall id ensures Held(map[ALICE := RICH], id) == 0 { HeldByThePoor(map[ALICE := RICH], id); }
  }

  lemma HeldByThePoor(accounts: map<Bytes, Account>, id: Bytes)
    requires forall a :: a in accounts ==> accounts[a].assets == map[]
    ensures Held(accounts, id) == 0
  {
    Totals.TotalZero(HoldingsOf(accounts, id));
  }

  // ---------------------------------------------------------------------------------------
  // Items
  // ---------------------------------------------------------------------------------------

  const OWNER: Account := RICH.(nfts := map[[9] := [5]])
  const COLLECTION: Collection := Collection([9], ALICE, [5], [5], [], map[5 := NftItem(5, ALICE, [])])
  const GIFT: Transaction := By(ALICE, BOB, 0, TransferNft([9], 5))

  function Owners(): map<Bytes, Account> { map[ALICE := OWNER, BOB := FRESH_ACCOUNT] }

  /** A refused block that leaves an item registered to an account that does not list it; when that account
      passes the item on, two accounts list it. */
  lemma RefusedBlockDoublesItem()
    ensures var n, b := NodeWith(Owners(), map[[9] := COLLECTION]), BlockOf([GIFT, TOO_MUCH], [1]);
            var l := LedgerOf(AddBlock(LENIENT, n, b, None).node);
            var o := MoveNft(l, BOB, CAROL, [9], 5);
            && ItemsAgree(LedgerOf(n)) && !Accepted(LENIENT, n, b) && !ItemsAgree(l)
            && o.Ok() && Listings(Current(o.ledger, ALICE), [9], 5) == Listings(Current(o.ledger, CAROL), [9], 5) == 1
  {
    var n, b := NodeWith(Owners(), map[[9] := COLLECTION]), BlockOf([GIFT, TOO_MUCH], [1]);
    GiftThenFail();
    OwnersAgree();
    RefusedAfterFirst(n.accounts, n.collections, GIFT);
    RefusedGift(n, b);
    PassedOn(LedgerOf(AddBlock(LENIENT, n, b, None).node));
    hide AddBlock, Accepted, ReachesExecution, Apply, ItemsAgree, MoveNft, Listings, OwnerOf;
  }

  lemma RefusedGift(n: Node, b: Block)
    requires n == NodeWith(Owners(), map[[9] := COLLECTION]) && b.transactions == [GIFT, TOO_MUCH]
    requires ReachesExecution(LENIENT, n, b) && !Accepted(LENIENT, n, b)
    ensures var m := LedgerOf(AddBlock(LENIENT, n, b, None).node);
            !ItemsAgree(m) && m.accounts == Owners() && OwnerOf(m.collections, [9], 5) == Some(BOB)
  {
    hide AddBlock, Accepted, ReachesExecution, LastReceiver, Apply, ItemsAgree, ExecuteAll, ItemsReturn, OwnerOf;
    var l := LedgerOf(n);
    GiftThenFail();
    OwnersAgree();
    FirstThenFail(l, GIFT);
    GiftIsNotReturned(l, b.transactions);
    RolledBackItemsIff(LENIENT, n, b, None);
    RolledBackFields(LENIENT, n, b, None);
    OwnerAfter(LENIENT, l, b.transactions, [9], 5);
  }

  lemma GiftIsNotReturned(l: Ledger, txs: seq<Transaction>)
    requires LastReceiver(LENIENT, l, txs, [9], 5) == ReceiverOf(GIFT, [9], 5)
    requires l.collections == map[[9] := COLLECTION]
    ensures LastReceiver(LENIENT, l, txs, [9], 5) == Some(BOB) && !ItemsReturn(LENIENT, l, txs)
  {
    hide LastReceiver;
    assert OwnerOf(l.collections, [9], 5) == Some(ALICE);
  }

  lemma GiftThenFail()
    ensures var l := Ledger(Owners(), map[], map[[9] := COLLECTION], map[]);
            && Apply(LENIENT.id, l, GIFT).Ok()
            && Apply(LENIENT.id, Apply(LENIENT.id, l, GIFT).ledger, TOO_MUCH).error == Some(InsufficientFunds)
  {
  }

  lemma OwnersAgree()
    ensures ItemsAgree(Ledger(Owners(), map[], map[[9] := COLLECTION], map[]))
  {
  }

  /** The accounts still say one thing and the registry another: the item is passed on all the same. */
  lemma PassedOn(l: Ledger)
    requires l.accounts == Owners() && OwnerOf(l.collections, [9], 5) == Some(BOB)
    ensures var o := MoveNft(l, BOB, CAROL, [9], 5);
            o.Ok() && Listings(Current(o.ledger, ALICE), [9], 5) == Listings(Current(o.ledger, CAROL), [9], 5) == 1
  {
  }

  // ---------------------------------------------------------------------------------------
  // Slashing
  // ---------------------------------------------------------------------------------------

  /** Two headers with invalid VRF proofs, neither of them acceptable, slash the validator they name. */
  lemma ForgedHeadersSlash()
    ensures var n0 := NodeWith(map[], map[]);
            var a, b := BlockOf([], [1]), BlockOf([], [8]);
            var n1 := AddBlock(STRICT, n0, a, None).node;
            && HeadStored(n0) && HeadStored(n1)
            && !Accepted(STRICT, n0, a) && !Accepted(STRICT, n1, b)
            && !IsSlashed(n1.validators, [2]) && IsSlashed(AddBlock(STRICT, n1, b, None).node.validators, [2])
  {
    var n0, a, b := NodeWith(map[], map[]), BlockOf([], [1]), BlockOf([], [8]);
    var n1 := AddBlock(STRICT, n0, a, None).node;
    ForgedIsNoted(n0, a);
    DeliverySlashesIff(STRICT, n1, b, None, [2]);
    AddBlockEffect(STRICT, n1, b, None);
    hide AddBlock, Accepted;
  }

  lemma ForgedIsNoted(n: Node, b: Block)
    requires HeadStored(n)
    ensures !Accepted(STRICT, n, b)
    ensures b.header.parentHash in n.tables.blocks && SeenHeader(n, KeyOf(b)).None? ==>
      AddBlock(STRICT, n, b, None).node == RecordHeader(n, KeyOf(b), b.hash)
  {
    AddBlockEffect(STRICT, n, b, None);
    hide ExecuteAll, IndexAll, Accept, IsSlotLeader, MerkleRoot;
  }
}
