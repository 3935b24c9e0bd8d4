/** What each kind of transaction does, said on balances, holdings, owners and channels: when it succeeds,
    what it changes, and what a failure leaves behind. */
module Effects {
  import opened Base
  import opened Ledger
  import opened Holdings

  /** The transaction carries the next nonce of its sender. */
  predicate Due(l: Ledger, tx: Transaction)
  {
    tx.nonce == NonceOf(l, tx.sender)
  }

  /** Only the named accounts differ. */
  ghost predicate OnlyAccounts(l: Ledger, l': Ledger, who: set<Bytes>)
  {
    forall a :: a !in who ==> Find(l'.accounts, a) == Find(l.accounts, a)
  }

  ghost predicate SameRegistries(l: Ledger, l': Ledger)
  {
    l'.assets == l.assets && l'.collections == l.collections && l'.channels == l.channels
  }

  /** The increment of the nonce is all that `Apply` adds to a successful execution. */
  lemma ApplyIsExecute(id: IdHash, l: Ledger, tx: Transaction)
    ensures var o, e := Apply(id, l, tx), Execute(id, l, tx);
            && o.Ok() == (Due(l, tx) && e.Ok())
            && (o.Ok() ==> OnlyNonce(e.ledger, o.ledger, tx.sender))
            && (!o.Ok() && Due(l, tx) ==> o.ledger == e.ledger)
            && (!Due(l, tx) ==> o.ledger == l)
  {
    hide Execute;
  }

  ghost predicate OnlyNonce(l: Ledger, l': Ledger, a: Bytes)
  {
    && SameRegistries(l, l') && OnlyAccounts(l, l', {a}) && a in l'.accounts
    && l'.accounts[a] == Current(l, a).(nonce := l'.accounts[a].nonce)
  }

  // ---------------------------------------------------------------------------------------
  // Coins
  // ---------------------------------------------------------------------------------------

  /** A native transfer takes the amount from the sender and gives it to the receiver. */
  lemma NativeTransferEffect(id: IdHash, l: Ledger, tx: Transaction)
    requires tx.data.NativeTransfer?
    ensures var o, amount := Apply(id, l, tx), tx.data.amount;
            && (o.Ok() <==> Due(l, tx) && tx.sender != tx.receiver && tx.sender in l.accounts
                            && amount <= BalanceOf(l, tx.sender))
            && (!o.Ok() ==> o.ledger == l)
            && (o.Ok() ==>
                  && BalanceOf(o.ledger, tx.sender) + amount == BalanceOf(l, tx.sender)
                  && BalanceOf(o.ledger, tx.receiver) == (BalanceOf(l, tx.receiver) + amount) % TWO_TO_THE_64
                  && OnlyAccounts(l, o.ledger, {tx.sender, tx.receiver}) && SameRegistries(l, o.ledger))
  {
    ApplyIsExecute(id, l, tx);
    hide Apply, NonceOf;
  }

  /** A registration takes the stake from the sender and gives it to nobody. */
  lemma RegisterValidatorEffect(id: IdHash, l: Ledger, tx: Transaction)
    requires tx.data.RegisterValidator?
    ensures var o, stake := Apply(id, l, tx), tx.data.stake;
            && (o.Ok() <==> Due(l, tx) && tx.sender in l.accounts && stake <= BalanceOf(l, tx.sender))
            && (!o.Ok() ==> o.ledger == l)
            && (o.Ok() ==>
                  && BalanceOf(o.ledger, tx.sender) + stake == BalanceOf(l, tx.sender)
                  && OnlyAccounts(l, o.ledger, {tx.sender}) && SameRegistries(l, o.ledger))
  {
    ApplyIsExecute(id, l, tx);
    hide Apply, NonceOf;
  }

  /** An unregistration only needs an account; the refund is not part of it. */
  lemma UnregisterValidatorEffect(id: IdHash, l: Ledger, tx: Transaction)
    requires tx.data.UnregisterValidator?
    ensures var o := Apply(id, l, tx);
            && (o.Ok() <==> Due(l, tx) && tx.sender in l.accounts)
            && (!o.Ok() ==> o.ledger == l)
            && (o.Ok() ==> OnlyNonce(l, o.ledger, tx.sender))
  {
    ApplyIsExecute(id, l, tx);
    hide Apply, NonceOf;
  }

  /** A delegation sets one allowance. */
  lemma DelegateSpendEffect(id: IdHash, l: Ledger, tx: Transaction, delegate: Bytes)
    requires tx.data.DelegateSpend?
    ensures var o := Apply(id, l, tx);
            && (o.Ok() <==> Due(l, tx))
            && (!o.Ok() ==> o.ledger == l)
            && (o.Ok() ==>
                  && Find(Current(o.ledger, tx.sender).allowance, delegate) ==
                       (if delegate == tx.data.delegate then Some(tx.data.allowance)
                        else Find(Current(l, tx.sender).allowance, delegate))
                  && BalanceOf(o.ledger, tx.sender) == BalanceOf(l, tx.sender)
                  && OnlyAccounts(l, o.ledger, {tx.sender}) && SameRegistries(l, o.ledger))
  {
    ApplyIsExecute(id, l, tx);
    hide Apply, NonceOf;
  }

  // ---------------------------------------------------------------------------------------
  // Assets
  // ---------------------------------------------------------------------------------------

  /** What an account holds of an asset. */
  function HoldingIn(l: Ledger, a: Bytes, asset: Bytes): U64
  {
    HoldingOf(Current(l, a), asset)
  }

  /** A creation registers the asset and gives the whole supply to the sender. */
  lemma CreateAssetEffect(id: IdHash, l: Ledger, tx: Transaction, asset: Bytes)
    requires tx.data.CreateAsset?
    ensures var o, created := Apply(id, l, tx), id(tx.sender, tx.nonce, tx.data.name);
            && (o.Ok() <==> Due(l, tx) && created !in l.assets)
            && (!o.Ok() ==> o.ledger == l)
            && (o.Ok() ==>
                  && HoldingIn(o.ledger, tx.sender, asset) ==
                       (if asset == created then tx.data.supply else HoldingIn(l, tx.sender, asset))
                  && Find(o.ledger.assets, asset) ==
                       (if asset == created
                        then Some(Asset(created, tx.sender, tx.data.name, tx.data.symbol, tx.data.supply,
                                        tx.data.decimals, tx.data.metadata))
                        else Find(l.assets, asset))
                  && OnlyAccounts(l, o.ledger, {tx.sender})
                  && o.ledger.collections == l.collections && o.ledger.channels == l.channels)
  {
    ApplyIsExecute(id, l, tx);
    hide Apply, NonceOf;
  }

  /** An asset transfer moves the amount from sender to receiver; to oneself it moves nothing. */
  lemma TransferAssetEffect(id: IdHash, l: Ledger, tx: Transaction, asset: Bytes)
    requires tx.data.TransferAsset?
    ensures var o, amount := Apply(id, l, tx), tx.data.amount;
            && (o.Ok() <==> Due(l, tx) && tx.data.assetId in l.assets && tx.sender in l.accounts
                            && amount <= HoldingIn(l, tx.sender, tx.data.assetId))
            && (!o.Ok() ==> o.ledger == l)
            && (o.Ok() ==>
                  && (asset != tx.data.assetId || tx.sender == tx.receiver ==>
                        && HoldingIn(o.ledger, tx.sender, asset) == HoldingIn(l, tx.sender, asset)
                        && HoldingIn(o.ledger, tx.receiver, asset) == HoldingIn(l, tx.receiver, asset))
                  && (asset == tx.data.assetId && tx.sender != tx.receiver ==>
                        && HoldingIn(o.ledger, tx.sender, asset) + amount == HoldingIn(l, tx.sender, asset)
                        && HoldingIn(o.ledger, tx.receiver, asset)
                             == (HoldingIn(l, tx.receiver, asset) + amount) % TWO_TO_THE_64)
                  && OnlyAccounts(l, o.ledger, {tx.sender, tx.receiver}) && SameRegistries(l, o.ledger))
  {
    ApplyIsExecute(id, l, tx);
    hide Apply, NonceOf;
  }

  // ---------------------------------------------------------------------------------------
  // Items
  // ---------------------------------------------------------------------------------------

  /** A new collection has its creator as issuer and no items. */
  lemma CreateCollectionEffect(id: IdHash, l: Ledger, tx: Transaction, collection: Bytes)
    requires tx.data.CreateCollection?
    ensures var o, created := Apply(id, l, tx), id(tx.sender, tx.nonce, tx.data.name);
            && (o.Ok() <==> Due(l, tx) && created !in l.collections)
            && (!o.Ok() ==> o.ledger == l)
            && (o.Ok() ==>
                  && Find(o.ledger.collections, collection) ==
                       (if collection == created
                        then Some(Collection(created, tx.sender, tx.data.name, tx.data.symbol, tx.data.metadata, map[]))
                        else Find(l.collections, collection))
                  && OnlyAccounts(l, o.ledger, {tx.sender}) && Current(o.ledger, tx.sender).nfts == Current(l, tx.sender).nfts
                  && o.ledger.assets == l.assets && o.ledger.channels == l.channels)
  {
    ApplyIsExecute(id, l, tx);
    hide Apply, NonceOf;
  }

  /** How often an account lists an item. */
  function ListedIn(l: Ledger, a: Bytes, collection: Bytes, item: U64): nat
  {
    Listings(Current(l, a), collection, item)
  }

  lemma SameListed(l: Ledger, l': Ledger, a: Bytes, s: Bytes, collection: Bytes, item: U64)
    requires OnlyNonce(l, l', s)
    ensures ListedIn(l', a, collection, item) == ListedIn(l, a, collection, item)
  {
    hide Listings;
    assert Current(l', a).nfts == Current(l, a).nfts by { if a != s { assert Find(l'.accounts, a) == Find(l.accounts, a); } }
    SameListings(Current(l', a), Current(l, a), collection, item);
  }

  lemma MintCounts(l: Ledger, sender: Bytes, c: Bytes, i: U64, metadata: Bytes, to: Bytes, collection: Bytes, item: U64)
    ensures var o := Mint(l, sender, c, i, metadata, to);
            o.Ok() ==>
              ListedIn(o.ledger, to, collection, item) ==
                ListedIn(l, to, collection, item) + (if collection == c && item == i then 1 else 0)
  {
    hide Listings, Listed;
    ListedCounts(Current(l, to), c, i, collection, item);
  }

  /** The registered item, if there is one. */
  function ItemIn(l: Ledger, collection: Bytes, item: U64): Option<NftItem>
  {
    if collection in l.collections then Find(l.collections[collection].items, item) else None
  }

  /** A collection keeps everything but its items. */
  ghost predicate SameButItemsOf(l: Ledger, l': Ledger, collection: Bytes)
  {
    && (collection in l'.collections <==> collection in l.collections)
    && (collection in l.collections ==>
          l'.collections[collection] == l.collections[collection].(items := l'.collections[collection].items))
  }

  /** The issuer mints an item that is not there yet; the recipient owns it and lists it once more. */
  lemma MintEffect(id: IdHash, l: Ledger, tx: Transaction, collection: Bytes, item: U64)
    requires tx.data.MintNft?
    ensures var o := Apply(id, l, tx);
            var same := collection == tx.data.collectionId && item == tx.data.itemId;
            && (o.Ok() <==> Due(l, tx) && tx.data.collectionId in l.collections
                            && l.collections[tx.data.collectionId].issuer == tx.sender
                            && OwnerOf(l.collections, tx.data.collectionId, tx.data.itemId).None?)
            && (!o.Ok() ==> o.ledger == l)
            && ItemIn(o.ledger, collection, item) ==
                 (if o.Ok() && same then Some(NftItem(item, tx.data.recipient, tx.data.itemMetadata))
                  else ItemIn(l, collection, item))
            && SameButItemsOf(l, o.ledger, collection)
            && (o.Ok() ==>
                  && ListedIn(o.ledger, tx.data.recipient, collection, item) ==
                       ListedIn(l, tx.data.recipient, collection, item) + (if same then 1 else 0)
                  && OnlyAccounts(l, o.ledger, {tx.sender, tx.data.recipient})
                  && o.ledger.assets == l.assets && o.ledger.channels == l.channels)
  {
    ApplyIsExecute(id, l, tx);
    hide Apply, NonceOf, Listed, ListedIn;
    MintCounts(l, tx.sender, tx.data.collectionId, tx.data.itemId, tx.data.itemMetadata, tx.data.recipient, collection, item);
    if Apply(id, l, tx).Ok() {
      SameListed(Execute(id, l, tx).ledger, Apply(id, l, tx).ledger, tx.data.recipient, tx.sender, collection, item);
    }
  }

  lemma MoveCounts(l: Ledger, from: Bytes, to: Bytes, c: Bytes, i: U64, collection: Bytes, item: U64)
    ensures var o, same := MoveNft(l, from, to, c, i), collection == c && item == i;
            o.Ok() ==>
              && ListedIn(o.ledger, from, collection, item) ==
                   (if !same then ListedIn(l, from, collection, item) else if from == to then 1 else 0)
              && (from != to ==>
                    ListedIn(o.ledger, to, collection, item) ==
                      ListedIn(l, to, collection, item) + (if same then 1 else 0))
  {
    hide Listings, Listed, Unlisted;
    UnlistedCounts(Current(l, from), c, i, collection, item);
    ListedCounts(Current(l, to), c, i, collection, item);
    ListedCounts(Unlisted(Current(l, from), c, i), c, i, collection, item);
  }

  /** The owner passes an item on: it is registered to the receiver, who lists it once more, and the sender no
      longer lists it. An owner without an account fails after the registry has changed. */
  lemma TransferNftEffect(id: IdHash, l: Ledger, tx: Transaction, collection: Bytes, item: U64)
    requires tx.data.TransferNft?
    ensures var o := Apply(id, l, tx);
            var same := collection == tx.data.collectionId && item == tx.data.itemId;
            var owned := Due(l, tx) && OwnerOf(l.collections, tx.data.collectionId, tx.data.itemId) == Some(tx.sender);
            && (o.Ok() <==> owned && tx.sender in l.accounts)
            && (!o.Ok() ==> o.ledger.accounts == l.accounts)
            && ItemIn(o.ledger, collection, item) ==
                 (if owned && same then Some(ItemIn(l, collection, item).value.(owner := tx.receiver))
                  else ItemIn(l, collection, item))
            && SameButItemsOf(l, o.ledger, collection)
            && o.ledger.assets == l.assets && o.ledger.channels == l.channels
            && (o.Ok() ==>
                  && ListedIn(o.ledger, tx.sender, collection, item) ==
                       (if !same then ListedIn(l, tx.sender, collection, item)
                        else if tx.sender == tx.receiver then 1 else 0)
                  && (tx.sender != tx.receiver ==>
                        ListedIn(o.ledger, tx.receiver, collection, item) ==
                          ListedIn(l, tx.receiver, collection, item) + (if same then 1 else 0))
                  && OnlyAccounts(l, o.ledger, {tx.sender, tx.receiver}))
  {
    ApplyIsExecute(id, l, tx);
    hide Apply, NonceOf, Listed, Unlisted, ListedIn;
    MoveCounts(l, tx.sender, tx.receiver, tx.data.collectionId, tx.data.itemId, collection, item);
    if Apply(id, l, tx).Ok() {
      SameListed(Execute(id, l, tx).ledger, Apply(id, l, tx).ledger, tx.sender, tx.sender, collection, item);
      SameListed(Execute(id, l, tx).ledger, Apply(id, l, tx).ledger, tx.receiver, tx.sender, collection, item);
    }
  }

  // ---------------------------------------------------------------------------------------
  // Channels
  // ---------------------------------------------------------------------------------------

  /** The identifier `open_channel` gives the channel. */
  function ChannelIdOf(id: IdHash, tx: Transaction): Bytes
  {
    id(tx.sender, tx.nonce, CHANNEL_NAME)
  }

  /** An opening moves the deposit from the sender into a new open channel; when only the identifier is taken
      the deposit is gone all the same. */
  lemma OpenChannelEffect(id: IdHash, l: Ledger, tx: Transaction, channel: Bytes)
    requires tx.data.OpenChannel?
    ensures var o, amount, key := Apply(id, l, tx), tx.data.amount, ChannelIdOf(id, tx);
            var funded := Due(l, tx) && tx.sender in l.accounts && amount <= BalanceOf(l, tx.sender);
            && (o.Ok() <==> funded && key !in l.channels)
            && (!funded ==> o.ledger == l)
            && (funded ==>
                  && BalanceOf(o.ledger, tx.sender) + amount == BalanceOf(l, tx.sender)
                  && OnlyAccounts(l, o.ledger, {tx.sender})
                  && o.ledger.assets == l.assets && o.ledger.collections == l.collections)
            && Find(o.ledger.channels, channel) ==
                 (if o.Ok() && channel == key then Some(Channel(key, tx.sender, tx.data.partner, amount, tx.data.duration, false))
                  else Find(l.channels, channel))
  {
    ApplyIsExecute(id, l, tx);
    hide Apply, NonceOf;
  }

  lemma PaidOut(l: Ledger, a: Bytes, x: U64, b: Bytes, y: U64)
    ensures var l' := Credit(Credit(l, a, x), b, y);
            && (a != b ==>
                  && BalanceOf(l', a) == (BalanceOf(l, a) + x) % TWO_TO_THE_64
                  && BalanceOf(l', b) == (BalanceOf(l, b) + y) % TWO_TO_THE_64)
            && (a == b ==> BalanceOf(l', a) == (BalanceOf(l, a) + x + y) % TWO_TO_THE_64)
            && OnlyAccounts(l, l', {a, b}) && SameRegistries(l, l')
  {
  }

  lemma SameBalances(l: Ledger, l': Ledger, s: Bytes, a: Bytes)
    requires OnlyNonce(l, l', s)
    ensures BalanceOf(l', a) == BalanceOf(l, a)
  {
    if a != s { assert Find(l'.accounts, a) == Find(l.accounts, a); }
  }

  /** A partner closes an open channel whose deposit is the sum of the final balances, and both are paid; a wrong
      sum closes it without paying. */
  lemma CloseChannelEffect(id: IdHash, l: Ledger, tx: Transaction, channel: Bytes)
    requires tx.data.CloseChannel?
    ensures var o, c := Apply(id, l, tx), tx.data.channelId;
            var marked := Due(l, tx) && c in l.channels && !l.channels[c].isClosed
                          && tx.sender in {l.channels[c].partnerA, l.channels[c].partnerB};
            && (o.Ok() <==> marked && (tx.data.finalA + tx.data.finalB) % TWO_TO_THE_64 == l.channels[c].totalDeposit)
            && (!o.Ok() ==> o.ledger.accounts == l.accounts)
            && Find(o.ledger.channels, channel) ==
                 (if marked && channel == c then Some(l.channels[c].(isClosed := true)) else Find(l.channels, channel))
            && o.ledger.assets == l.assets && o.ledger.collections == l.collections
            && (o.Ok() ==>
                  var a, b := l.channels[c].partnerA, l.channels[c].partnerB;
                  && (a != b ==>
                        && BalanceOf(o.ledger, a) == (BalanceOf(l, a) + tx.data.finalA) % TWO_TO_THE_64
                        && BalanceOf(o.ledger, b) == (BalanceOf(l, b) + tx.data.finalB) % TWO_TO_THE_64)
                  && (a == b ==>
                        BalanceOf(o.ledger, a) == (BalanceOf(l, a) + tx.data.finalA + tx.data.finalB) % TWO_TO_THE_64)
                  && OnlyAccounts(l, o.ledger, {a, b}))
  {
    ApplyIsExecute(id, l, tx);
    hide Apply, NonceOf, Credit, BalanceOf;
    var o, e, c := Apply(id, l, tx), Execute(id, l, tx), tx.data.channelId;
    if o.Ok() {
      var a, b := l.channels[c].partnerA, l.channels[c].partnerB;
      PaidOut(Marked(l, c), a, tx.data.finalA, b, tx.data.finalB);
      MarkingPaysNobody(l, c, a);
      MarkingPaysNobody(l, c, b);
      SameBalances(e.ledger, o.ledger, tx.sender, a);
      SameBalances(e.ledger, o.ledger, tx.sender, b);
    }
  }

  lemma MarkingPaysNobody(l: Ledger, c: Bytes, a: Bytes)
    requires c in l.channels
    ensures BalanceOf(Marked(l, c), a) == BalanceOf(l, a)
  {
  }

  // ---------------------------------------------------------------------------------------
  // Well-formedness
  // ---------------------------------------------------------------------------------------

  /** The texts a transaction must not leave empty. */
  function NeededTexts(tx: Transaction): set<Bytes>
  {
    {tx.sender} +
    match tx.data
    case NativeTransfer(_) => {tx.receiver}
    case TransferAsset(_, _) => {tx.receiver}
    case TransferNft(c, _) => {c, tx.receiver}
    case CreateAsset(name, symbol, _, _, _) => {name, symbol}
    case CreateCollection(name, symbol, _) => {name, symbol}
    case MintNft(c, _, _, _) => {c}
    case OpenChannel(partner, _, _) => {partner}
    case CloseChannel(c, _, _, _) => {c}
    case DelegateSpend(delegate, _, _) => {delegate}
    case RegisterValidator(_) => {}
    case UnregisterValidator => {}
  }

  /** The numbers it must not leave at zero. */
  function NeededNumbers(tx: Transaction): set<U64>
  {
    match tx.data
    case NativeTransfer(amount) => {amount}
    case CreateAsset(_, _, supply, _, _) => {supply}
    case TransferAsset(_, amount) => {amount}
    case OpenChannel(_, amount, _) => {amount}
    case DelegateSpend(_, allowance, _) => {allowance}
    case RegisterValidator(stake) => {stake}
    case _ => {}
  }

  lemma ValidLogicIff(tx: Transaction)
    ensures ValidLogic(tx) <==>
      [] !in NeededTexts(tx) && 0 !in NeededNumbers(tx) && (tx.data.NativeTransfer? ==> tx.sender != tx.receiver)
  {
    match tx.data {
      case _ =>
    }
  }
}
