/** Every asset's holdings add up to its supply, and every item is listed exactly by its owner. */
module Holdings {
  import opened Base
  import opened Totals
  import opened Ledger

  // ---------------------------------------------------------------------------------------
  // Assets
  // ---------------------------------------------------------------------------------------

  function HoldingsOf(accounts: map<Bytes, Account>, id: Bytes): map<Bytes, nat>
  {
    map a | a in accounts :: HoldingOf(accounts[a], id)
  }

  /** What all accounts together hold of an asset. */
  ghost function Held(accounts: map<Bytes, Account>, id: Bytes): nat
  {
    Total(HoldingsOf(accounts, id))
  }

  function SupplyOf(assets: map<Bytes, Asset>, id: Bytes): nat
  {
    if id in assets then assets[id].totalSupply else 0
  }

  /** The holdings of every asset sum to its registered supply. */
  ghost predicate AssetsAgree(accounts: map<Bytes, Account>, assets: map<Bytes, Asset>)
  {
    forall id :: Held(accounts, id) == SupplyOf(assets, id)
  }

  /** ... or to nothing, when the block that created the asset was rolled back. */
  ghost predicate AssetsAgreeOrGone(accounts: map<Bytes, Account>, assets: map<Bytes, Asset>)
  {
    forall id :: Held(accounts, id) == 0 || Held(accounts, id) == SupplyOf(assets, id)
  }

  lemma HeldAfterPut(accounts: map<Bytes, Account>, a: Bytes, account: Account, id: Bytes)
    ensures Held(accounts[a := account], id) + HoldingOf(GetOr(Find(accounts, a), FRESH_ACCOUNT), id)
         == Held(accounts, id) + HoldingOf(account, id)
    ensures HoldingOf(GetOr(Find(accounts, a), FRESH_ACCOUNT), id) <= Held(accounts, id)
  {
    hide Total;
    assert HoldingsOf(accounts[a := account], id) == HoldingsOf(accounts, id)[a := HoldingOf(account, id)];
    TotalUpdate(HoldingsOf(accounts, id), a, HoldingOf(account, id));
    TotalTwo(HoldingsOf(accounts, id), a, a);
  }

  lemma HeldAfterPutAccount(l: Ledger, a: Bytes, account: Account, id: Bytes)
    ensures Held(PutAccount(l, a, account).accounts, id) + HoldingOf(Current(l, a), id) == Held(l.accounts, id) + HoldingOf(account, id)
    ensures HoldingOf(Current(l, a), id) <= Held(l.accounts, id)
  {
    hide Held;
    HeldAfterPut(l.accounts, a, account, id);
  }

  /** Creating an asset gives its whole supply to the issuer; the identifier must be held by nobody. */
  lemma MakeAssetHolds(l: Ledger, id: Bytes, asset: Asset, other: Bytes)
    requires id !in l.assets ==> Held(l.accounts, id) == 0
    ensures var o := MakeAsset(l, id, asset);
            Held(o.ledger.accounts, other) == if o.Ok() && other == id then asset.totalSupply as nat else Held(l.accounts, other)
  {
    hide Held;
    if id !in l.assets {
      var issuer := Current(l, asset.issuer);
      HeldAfterPutAccount(l, asset.issuer, WithHolding(issuer, id, asset.totalSupply), other);
      assert other == id ==> HoldingOf(issuer, id) == 0 by { HeldAfterPutAccount(l, asset.issuer, issuer, id); }
    }
  }

  /** Moving an asset, also to oneself, keeps what is held of every asset. */
  lemma MoveAssetHolds(l: Ledger, from: Bytes, to: Bytes, id: Bytes, amount: U64, other: Bytes)
    requires Held(l.accounts, id) < TWO_TO_THE_64
    ensures Held(MoveAsset(l, from, to, id, amount).ledger.accounts, other) == Held(l.accounts, other)
  {
    hide Held;
    if MoveAsset(l, from, to, id, amount).Ok() {
      var source := Current(l, from);
      var l1 := PutAccount(l, from, WithHolding(source, id, HoldingOf(source, id) - amount));
      DebitAsset(l, from, id, amount, id);
      DebitAsset(l, from, id, amount, other);
      CreditAsset(l1, to, id, amount, other);
    }
  }

  lemma DebitAsset(l: Ledger, a: Bytes, id: Bytes, amount: U64, other: Bytes)
    requires amount <= HoldingOf(Current(l, a), id)
    ensures Held(PutAccount(l, a, WithHolding(Current(l, a), id, HoldingOf(Current(l, a), id) - amount)).accounts, other)
            + (if other == id then amount else 0) == Held(l.accounts, other)
  {
    hide Held;
    HeldAfterPutAccount(l, a, WithHolding(Current(l, a), id, HoldingOf(Current(l, a), id) - amount), other);
  }

  lemma CreditAsset(l: Ledger, a: Bytes, id: Bytes, amount: U64, other: Bytes)
    requires Held(l.accounts, id) + amount < TWO_TO_THE_64
    ensures Held(PutAccount(l, a, WithHolding(Current(l, a), id, Add64(HoldingOf(Current(l, a), id), amount))).accounts, other)
         == Held(l.accounts, other) + if other == id then amount else 0
  {
    hide Held;
    HeldAfterPutAccount(l, a, Current(l, a), id);
    HeldAfterPutAccount(l, a, WithHolding(Current(l, a), id, Add64(HoldingOf(Current(l, a), id), amount)), other);
  }

  lemma OthersHold(id: IdHash, l: Ledger, tx: Transaction, asset: Bytes)
    requires !MovesAssets(tx)
    ensures Held(Execute(id, l, tx).ledger.accounts, asset) == Held(l.accounts, asset)
  {
    hide Execute, Total;
    var l' := Execute(id, l, tx).ledger;
    forall a ensures At(HoldingsOf(l.accounts, asset), a) == At(HoldingsOf(l'.accounts, asset), a) {
      ExecuteFrame(id, l, tx, a);
      HoldingAt(l, asset, a);
      HoldingAt(l', asset, a);
    }
    TotalSame(HoldingsOf(l.accounts, asset), HoldingsOf(l'.accounts, asset));
  }

  lemma HoldingAt(l: Ledger, asset: Bytes, a: Bytes)
    ensures At(HoldingsOf(l.accounts, asset), a) == HoldingOf(Current(l, a), asset)
  {
  }

  lemma RegistryFrame(id: IdHash, l: Ledger, tx: Transaction)
    ensures !tx.data.CreateAsset? ==> Execute(id, l, tx).ledger.assets == l.assets
  {
  }

  lemma IncrementHolds(l: Ledger, a: Bytes, asset: Bytes)
    ensures Held(IncrementNonce(l, a).accounts, asset) == Held(l.accounts, asset)
  {
    hide Held;
    var account := Current(l, a);
    HeldAfterPutAccount(l, a, account.(nonce := Add64(account.nonce, 1)), asset);
  }

  lemma ExecuteHolds(id: IdHash, l: Ledger, tx: Transaction, asset: Bytes)
    requires forall a :: Held(l.accounts, a) <= SupplyOf(l.assets, a)
    ensures var l' := Execute(id, l, tx).ledger;
            && (asset in l.assets ==> asset in l'.assets && l'.assets[asset] == l.assets[asset])
            && Held(l'.accounts, asset) == HeldAfter(l, l'.assets, asset)
  {
    hide Held;
    match tx.data {
      case CreateAsset(name, symbol, supply, decimals, metadata) =>
        var assetId := id(tx.sender, tx.nonce, name);
        assert Held(l.accounts, assetId) <= SupplyOf(l.assets, assetId);
        MakeAssetHolds(l, assetId, Asset(assetId, tx.sender, name, symbol, supply, decimals, metadata), asset);
      case TransferAsset(assetId, amount) =>
        assert Held(l.accounts, assetId) <= SupplyOf(l.assets, assetId);
        MoveAssetHolds(l, tx.sender, tx.receiver, assetId, amount, asset);
      case _ =>
        OthersHold(id, l, tx, asset);
        RegistryFrame(id, l, tx);
    }
  }

  /** The whole supply of an asset that is new in `assets`, and otherwise what was held before. */
  ghost function HeldAfter(l: Ledger, assets: map<Bytes, Asset>, asset: Bytes): nat
  {
    if asset in assets && asset !in l.assets then SupplyOf(assets, asset) else Held(l.accounts, asset)
  }

  /** What is held of an asset after a transaction: its supply if the transaction created it, and
      otherwise what was held before. */
  lemma ApplyHolds(id: IdHash, l: Ledger, tx: Transaction, asset: Bytes)
    requires forall a :: Held(l.accounts, a) <= SupplyOf(l.assets, a)
    ensures var l' := Apply(id, l, tx).ledger;
            && (asset in l.assets ==> asset in l'.assets && l'.assets[asset] == l.assets[asset])
            && Held(l'.accounts, asset) == HeldAfter(l, l'.assets, asset)
  {
    hide Held, Execute;
    ExecuteHolds(id, l, tx, asset);
    IncrementHolds(Execute(id, l, tx).ledger, tx.sender, asset);
  }

  /** Over any sequence of transactions, failed ones included, each asset's holdings keep summing to its supply. */
  lemma ApplyKeepsAssets(id: IdHash, l: Ledger, tx: Transaction)
    requires AssetsAgree(l.accounts, l.assets)
    ensures var l' := Apply(id, l, tx).ledger; AssetsAgree(l'.accounts, l'.assets)
  {
    hide Held, Apply;
    var l' := Apply(id, l, tx).ledger;
    forall asset ensures Held(l'.accounts, asset) == SupplyOf(l'.assets, asset) {
      ApplyHolds(id, l, tx, asset);
    }
  }

  /** With roll-backs, which restore the accounts but not the registry, the sum is the supply or nothing. */
  lemma ApplyKeepsAssetsOrGone(id: IdHash, l: Ledger, tx: Transaction, stored: map<Bytes, Account>)
    requires AssetsAgreeOrGone(l.accounts, l.assets) && AssetsAgreeOrGone(stored, l.assets)
    ensures var l' := Apply(id, l, tx).ledger;
            AssetsAgreeOrGone(l'.accounts, l'.assets) && AssetsAgreeOrGone(stored, l'.assets)
  {
    hide Held, Apply;
    var l' := Apply(id, l, tx).ledger;
    forall asset
      ensures Held(l'.accounts, asset) == 0 || Held(l'.accounts, asset) == SupplyOf(l'.assets, asset)
      ensures Held(stored, asset) == 0 || Held(stored, asset) == SupplyOf(l'.assets, asset)
    {
      ApplyHolds(id, l, tx, asset);
      assert Held(stored, asset) == 0 || Held(stored, asset) == SupplyOf(l.assets, asset);
    }
  }

  // ---------------------------------------------------------------------------------------
  // Items
  // ---------------------------------------------------------------------------------------

  /** How often an account lists an item of a collection. */
  function Listings(account: Account, c: Bytes, item: U64): nat
  {
    multiset(ListingOf(account, c))[item]
  }

  function OwnerOf(collections: map<Bytes, Collection>, c: Bytes, item: U64): Option<Bytes>
  {
    if c in collections && item in collections[c].items then Some(collections[c].items[item].owner) else None
  }

  /** The registered owner of an item lists it exactly once, and nobody else lists it. */
  ghost predicate ItemsAgree(l: Ledger)
  {
    forall a, c, item :: AgreesAt(l, a, c, item)
  }

  lemma {:induction false} WithoutCounts(items: seq<U64>, item: U64, other: U64)
    ensures multiset(Without(items, item))[other] == if other == item then 0 else multiset(items)[other]
  {
    if items != [] {
      WithoutCounts(items[1..], item, other);
      assert items == [items[0]] + items[1..];
    }
  }

  lemma ListedCounts(account: Account, c: Bytes, item: U64, c': Bytes, other: U64)
    ensures Listings(Listed(account, c, item), c', other)
         == Listings(account, c', other) + if c' == c && other == item then 1 else 0
  {
  }

  lemma UnlistedCounts(account: Account, c: Bytes, item: U64, c': Bytes, other: U64)
    ensures Listings(Unlisted(account, c, item), c', other)
         == if c' == c && other == item then 0 else Listings(account, c', other)
  {
    WithoutCounts(ListingOf(account, c), item, other);
  }

  /** The agreement about one account and one item. */
  ghost predicate AgreesAt(l: Ledger, a: Bytes, c: Bytes, item: U64)
  {
    Listings(Current(l, a), c, item) == if OwnerOf(l.collections, c, item) == Some(a) then 1 else 0
  }

  lemma MintAgrees(l: Ledger, sender: Bytes, c: Bytes, item: U64, metadata: Bytes, recipient: Bytes, a: Bytes,
        c': Bytes, other: U64)
    requires AgreesAt(l, a, c', other)
    ensures AgreesAt(Mint(l, sender, c, item, metadata, recipient).ledger, a, c', other)
  {
    hide Listings, Listed;
    ListedCounts(Current(l, recipient), c, item, c', other);
  }

  /** An item transfer, also to oneself. */
  lemma MoveNftAgrees(l: Ledger, from: Bytes, to: Bytes, c: Bytes, item: U64, a: Bytes, c': Bytes, other: U64)
    requires AgreesAt(l, a, c', other)
    ensures MoveNft(l, from, to, c, item).Ok() ==> AgreesAt(MoveNft(l, from, to, c, item).ledger, a, c', other)
  {
    hide Listings, Listed, Unlisted;
    if MoveNft(l, from, to, c, item).Ok() {
      UnlistedCounts(Current(l, from), c, item, c', other);
      ListedCounts(Current(l, to), c, item, c', other);
      ListedCounts(Unlisted(Current(l, from), c, item), c, item, c', other);
    }
  }

  /** The owner of an item lists it, so it has an account: a transfer cannot fail once the registry has changed. */
  lemma MoveNftFailsClean(l: Ledger, from: Bytes, to: Bytes, c: Bytes, item: U64)
    requires AgreesAt(l, from, c, item) && !MoveNft(l, from, to, c, item).Ok()
    ensures MoveNft(l, from, to, c, item).ledger == l
  {
    assert OwnerOf(l.collections, c, item) == Some(from) ==> ListingOf(Current(l, from), c) != [];
  }

  /** Transactions other than minting and item transfers change no listing and no owner. */
  lemma OthersAgree(id: IdHash, l: Ledger, tx: Transaction, a: Bytes, c: Bytes, item: U64)
    requires AgreesAt(l, a, c, item) && !MovesItems(tx)
    ensures AgreesAt(Execute(id, l, tx).ledger, a, c, item)
  {
    hide Execute;
    ExecuteFrame(id, l, tx, a);
    OwnersFrame(id, l, tx, c, item);
  }

  lemma OwnersFrame(id: IdHash, l: Ledger, tx: Transaction, c: Bytes, item: U64)
    requires !MovesItems(tx)
    ensures OwnerOf(Execute(id, l, tx).ledger.collections, c, item) == OwnerOf(l.collections, c, item)
  {
  }

  /** Over any sequence of transactions, failed ones included, owners and listings agree. */
  lemma ApplyKeepsItems(id: IdHash, l: Ledger, tx: Transaction)
    requires ItemsAgree(l)
    ensures ItemsAgree(Apply(id, l, tx).ledger)
  {
    hide AgreesAt, Apply;
    forall a, c, item ensures AgreesAt(Apply(id, l, tx).ledger, a, c, item) {
      ApplyAgrees(id, l, tx, a, c, item);
    }
  }

  lemma ApplyAgrees(id: IdHash, l: Ledger, tx: Transaction, a: Bytes, c: Bytes, item: U64)
    requires forall a', c', item' :: AgreesAt(l, a', c', item')
    ensures AgreesAt(Apply(id, l, tx).ledger, a, c, item)
  {
    ExecuteAgrees(id, l, tx, a, c, item);
    IncrementAgrees(Execute(id, l, tx).ledger, tx.sender, a, c, item);
    hide AgreesAt, Execute;
  }

  lemma ExecuteAgrees(id: IdHash, l: Ledger, tx: Transaction, a: Bytes, c: Bytes, item: U64)
    requires forall a', c', item' :: AgreesAt(l, a', c', item')
    ensures AgreesAt(Execute(id, l, tx).ledger, a, c, item)
  {
    hide AgreesAt, Mint, MoveNft;
    assert AgreesAt(l, a, c, item);
    match tx.data {
      case MintNft(c', item', metadata, recipient) =>
        MintAgrees(l, tx.sender, c', item', metadata, recipient, a, c, item);
      case TransferNft(c', item') =>
        MoveNftAgrees(l, tx.sender, tx.receiver, c', item', a, c, item);
        if !MoveNft(l, tx.sender, tx.receiver, c', item').Ok() {
          assert AgreesAt(l, tx.sender, c', item');
          MoveNftFailsClean(l, tx.sender, tx.receiver, c', item');
        }
      case _ => OthersAgree(id, l, tx, a, c, item);
    }
  }

  lemma IncrementAgrees(l: Ledger, b: Bytes, a: Bytes, c: Bytes, item: U64)
    requires AgreesAt(l, a, c, item)
    ensures AgreesAt(IncrementNonce(l, b), a, c, item)
  {
    hide Listings;
    assert Current(IncrementNonce(l, b), a).nfts == Current(l, a).nfts;
    SameListings(Current(IncrementNonce(l, b), a), Current(l, a), c, item);
  }

  lemma SameListings(x: Account, y: Account, c: Bytes, item: U64)
    requires x.nfts == y.nfts
    ensures Listings(x, c, item) == Listings(y, c, item)
  {
  }
}
