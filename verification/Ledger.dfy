/** Accounts, registries and transactions as values, and what one transaction does to them. */
module Ledger {
  import opened Base

  datatype Account = Account(
    balance: U64,
    nonce: U64,
    assets: map<Bytes, U64>,
    nfts: map<Bytes, seq<U64>>,
    allowance: map<Bytes, U64>)

  const FRESH_ACCOUNT: Account := Account(0, 0, map[], map[], map[])

  datatype Asset = Asset(
    id: Bytes, issuer: Bytes, name: Bytes, symbol: Bytes, totalSupply: U64, decimals: Byte, metadata: Bytes)

  datatype NftItem = NftItem(id: U64, owner: Bytes, metadata: Bytes)

  datatype Collection = Collection(
    id: Bytes, issuer: Bytes, name: Bytes, symbol: Bytes, metadata: Bytes, items: map<U64, NftItem>)

  datatype Channel = Channel(
    id: Bytes, partnerA: Bytes, partnerB: Bytes, totalDeposit: U64, expiry: U64, isClosed: bool)

  datatype TransactionData =
    | NativeTransfer(amount: U64)
    | CreateAsset(name: Bytes, symbol: Bytes, supply: U64, decimals: Byte, metadata: Bytes)
    | TransferAsset(assetId: Bytes, amount: U64)
    | CreateCollection(name: Bytes, symbol: Bytes, metadata: Bytes)
    | MintNft(collectionId: Bytes, itemId: U64, itemMetadata: Bytes, recipient: Bytes)
    | TransferNft(collectionId: Bytes, itemId: U64)
    | OpenChannel(partner: Bytes, amount: U64, duration: U64)
    | CloseChannel(channelId: Bytes, balanceProof: Bytes, finalA: U64, finalB: U64)
    | DelegateSpend(delegate: Bytes, allowance: U64, expiry: U64)
    | RegisterValidator(stake: U64)
    | UnregisterValidator

  datatype Transaction = Transaction(
    sender: Bytes, receiver: Bytes, nonce: U64, data: TransactionData, signature: Bytes)

  datatype Error =
    | InvalidNonce | SelfTransfer | AccountNotFound | InsufficientFunds | AlreadyExists | NotFound
    | NotIssuer | NotOwner | ChannelClosed | NotAuthorized | BalanceMismatch | InvalidTransaction

  /** The accounts as every reader sees them, which is the overlay over the store, and the registries. */
  datatype Ledger = Ledger(
    accounts: map<Bytes, Account>,
    assets: map<Bytes, Asset>,
    collections: map<Bytes, Collection>,
    channels: map<Bytes, Channel>)

  /** A failed operation keeps the changes it made before it failed. */
  datatype Outcome = Outcome(error: Option<Error>, ledger: Ledger)
  {
    predicate Ok() { error.None? }
  }

  /** The hash of a sender, a nonce and a name that serves as an identifier. */
  type IdHash = (Bytes, U64, Bytes) -> Bytes

  const CHANNEL_NAME: Bytes := [99, 104, 97, 110, 110, 101, 108]

  function Done(l: Ledger): Outcome { Outcome(None, l) }

  function Fail(l: Ledger, e: Error): Outcome { Outcome(Some(e), l) }

  function GetAccount(l: Ledger, a: Bytes): Option<Account>
  {
    Find(l.accounts, a)
  }

  function BalanceOf(l: Ledger, a: Bytes): U64
  {
    match GetAccount(l, a) case Some(account) => account.balance case None => 0
  }

  function NonceOf(l: Ledger, a: Bytes): U64
  {
    match GetAccount(l, a) case Some(account) => account.nonce case None => 0
  }

  function PutAccount(l: Ledger, a: Bytes, account: Account): Ledger
  {
    l.(accounts := l.accounts[a := account])
  }

  function TransferNative(l: Ledger, from: Bytes, to: Bytes, amount: U64): (o: Outcome)
    ensures o.ledger.assets == l.assets
    ensures o.ledger.collections == l.collections
    ensures o.ledger.channels == l.channels
  {
    if from == to then Fail(l, SelfTransfer)
    else
      var source := GetAccount(l, from);
      if source.None? then Fail(l, AccountNotFound)
      else if source.value.balance < amount then Fail(l, InsufficientFunds)
      else
        var l1 := PutAccount(l, from, source.value.(balance := source.value.balance - amount));
        var target := GetOr(GetAccount(l1, to), FRESH_ACCOUNT);
        Done(PutAccount(l1, to, target.(balance := Add64(target.balance, amount))))
  }

  function HoldingOf(account: Account, id: Bytes): U64
  {
    if id in account.assets then account.assets[id] else 0
  }

  function WithHolding(account: Account, id: Bytes, amount: U64): Account
  {
    account.(assets := account.assets[id := amount])
  }

  function MakeAsset(l: Ledger, id: Bytes, asset: Asset): (o: Outcome)
    ensures o.ledger.collections == l.collections
    ensures o.ledger.channels == l.channels
  {
    if id in l.assets then Fail(l, AlreadyExists)
    else
      var issuer := GetOr(GetAccount(l, asset.issuer), FRESH_ACCOUNT);
      var l1 := PutAccount(l, asset.issuer, WithHolding(issuer, id, asset.totalSupply));
      Done(l1.(assets := l1.assets[id := asset]))
  }

  function MoveAsset(l: Ledger, from: Bytes, to: Bytes, id: Bytes, amount: U64): (o: Outcome)
    ensures o.ledger.assets == l.assets
    ensures o.ledger.collections == l.collections
    ensures o.ledger.channels == l.channels
  {
    if id !in l.assets then Fail(l, NotFound)
    else
      var source := GetAccount(l, from);
      if source.None? then Fail(l, AccountNotFound)
      else
        var held := HoldingOf(source.value, id);
        if held < amount then Fail(l, InsufficientFunds)
        else
          var l1 := PutAccount(l, from, WithHolding(source.value, id, held - amount));
          var target := GetOr(GetAccount(l1, to), FRESH_ACCOUNT);
          Done(PutAccount(l1, to, WithHolding(target, id, Add64(HoldingOf(target, id), amount))))
  }

  function MakeCollection(l: Ledger, id: Bytes, collection: Collection): (o: Outcome)
    ensures o.ledger.accounts == l.accounts
    ensures o.ledger.assets == l.assets
    ensures o.ledger.channels == l.channels
  {
    if id in l.collections then Fail(l, AlreadyExists)
    else Done(l.(collections := l.collections[id := collection]))
  }

  function ListingOf(account: Account, c: Bytes): seq<U64>
  {
    if c in account.nfts then account.nfts[c] else []
  }

  /** `Vec::retain`: every occurrence of `item` removed. */
  function Without(items: seq<U64>, item: U64): seq<U64>
  {
    if items == [] then []
    else (if items[0] == item then [] else [items[0]]) + Without(items[1..], item)
  }

  function Listed(account: Account, c: Bytes, item: U64): Account
  {
    account.(nfts := account.nfts[c := ListingOf(account, c) + [item]])
  }

  function Unlisted(account: Account, c: Bytes, item: U64): Account
  {
    if c in account.nfts then account.(nfts := account.nfts[c := Without(account.nfts[c], item)]) else account
  }

  function Mint(l: Ledger, sender: Bytes, c: Bytes, item: U64, metadata: Bytes, recipient: Bytes): (o: Outcome)
    ensures o.ledger.assets == l.assets
    ensures o.ledger.channels == l.channels
  {
    if c !in l.collections then Fail(l, NotFound)
    else if l.collections[c].issuer != sender then Fail(l, NotIssuer)
    else if item in l.collections[c].items then Fail(l, AlreadyExists)
    else
      var items := l.collections[c].items[item := NftItem(item, recipient, metadata)];
      var l1 := l.(collections := l.collections[c := l.collections[c].(items := items)]);
      var account := GetOr(GetAccount(l1, recipient), FRESH_ACCOUNT);
      Done(PutAccount(l1, recipient, Listed(account, c, item)))
  }

  /** The registry entry changes hands before the sender's account is looked up. */
  function MoveNft(l: Ledger, from: Bytes, to: Bytes, c: Bytes, item: U64): (o: Outcome)
    ensures o.ledger.assets == l.assets
    ensures o.ledger.channels == l.channels
  {
    if c !in l.collections then Fail(l, NotFound)
    else if item !in l.collections[c].items then Fail(l, NotFound)
    else if l.collections[c].items[item].owner != from then Fail(l, NotOwner)
    else
      var items := l.collections[c].items[item := l.collections[c].items[item].(owner := to)];
      var l1 := l.(collections := l.collections[c := l.collections[c].(items := items)]);
      var source := GetAccount(l1, from);
      if source.None? then Fail(l1, AccountNotFound)
      else
        var l2 := PutAccount(l1, from, Unlisted(source.value, c, item));
        var target := GetOr(GetAccount(l2, to), FRESH_ACCOUNT);
        Done(PutAccount(l2, to, Listed(target, c, item)))
  }

  /** The deposit is deducted before the identifier is checked. */
  function Open(l: Ledger, channel: Channel): (o: Outcome)
    ensures o.ledger.assets == l.assets
    ensures o.ledger.collections == l.collections
  {
    var source := GetAccount(l, channel.partnerA);
    if source.None? then Fail(l, AccountNotFound)
    else if source.value.balance < channel.totalDeposit then Fail(l, InsufficientFunds)
    else
      var l1 := PutAccount(l, channel.partnerA, source.value.(balance := source.value.balance - channel.totalDeposit));
      if channel.id in l1.channels then Fail(l1, AlreadyExists)
      else Done(l1.(channels := l1.channels[channel.id := channel]))
  }

  function Credit(l: Ledger, a: Bytes, amount: U64): Ledger
  {
    var account := GetOr(GetAccount(l, a), FRESH_ACCOUNT);
    PutAccount(l, a, account.(balance := Add64(account.balance, amount)))
  }

  /** The ledger with a channel marked closed and nothing paid out yet. */
  function Marked(l: Ledger, id: Bytes): Ledger
    requires id in l.channels
  {
    l.(channels := l.channels[id := l.channels[id].(isClosed := true)])
  }

  /** The channel is marked closed before the final balances are compared with the deposit. */
  function Close(l: Ledger, sender: Bytes, id: Bytes, finalA: U64, finalB: U64): (o: Outcome)
    ensures o.ledger.assets == l.assets
    ensures o.ledger.collections == l.collections
  {
    if id !in l.channels then Fail(l, NotFound)
    else
      var channel := l.channels[id];
      if channel.isClosed then Fail(l, ChannelClosed)
      else if sender != channel.partnerA && sender != channel.partnerB then Fail(l, NotAuthorized)
      else
        var l1 := Marked(l, id);
        if Add64(finalA, finalB) != channel.totalDeposit then Fail(l1, BalanceMismatch)
        else Done(Credit(Credit(l1, channel.partnerA, finalA), channel.partnerB, finalB))
  }

  function Delegate(l: Ledger, owner: Bytes, delegate: Bytes, allowance: U64): (o: Outcome)
    ensures o.ledger.assets == l.assets
    ensures o.ledger.collections == l.collections
    ensures o.ledger.channels == l.channels
  {
    var account := GetOr(GetAccount(l, owner), FRESH_ACCOUNT);
    Done(PutAccount(l, owner, account.(allowance := account.allowance[delegate := allowance])))
  }

  function DeductStake(l: Ledger, a: Bytes, stake: U64): (o: Outcome)
    ensures o.ledger.assets == l.assets
    ensures o.ledger.collections == l.collections
    ensures o.ledger.channels == l.channels
  {
    var account := GetAccount(l, a);
    if account.None? then Fail(l, AccountNotFound)
    else if account.value.balance < stake then Fail(l, InsufficientFunds)
    else Done(PutAccount(l, a, account.value.(balance := account.value.balance - stake)))
  }

  /** The body of `apply_transaction` between the nonce check and the nonce increment. */
  function Execute(id: IdHash, l: Ledger, tx: Transaction): Outcome
  {
    match tx.data
    case NativeTransfer(amount) => TransferNative(l, tx.sender, tx.receiver, amount)
    case CreateAsset(name, symbol, supply, decimals, metadata) =>
      var assetId := id(tx.sender, tx.nonce, name);
      MakeAsset(l, assetId, Asset(assetId, tx.sender, name, symbol, supply, decimals, metadata))
    case TransferAsset(assetId, amount) => MoveAsset(l, tx.sender, tx.receiver, assetId, amount)
    case CreateCollection(name, symbol, metadata) =>
      var c := id(tx.sender, tx.nonce, name);
      MakeCollection(l, c, Collection(c, tx.sender, name, symbol, metadata, map[]))
    case MintNft(c, item, metadata, recipient) => Mint(l, tx.sender, c, item, metadata, recipient)
    case TransferNft(c, item) => MoveNft(l, tx.sender, tx.receiver, c, item)
    case OpenChannel(partner, amount, duration) =>
      Open(l, Channel(id(tx.sender, tx.nonce, CHANNEL_NAME), tx.sender, partner, amount, duration, false))
    case CloseChannel(channelId, _, finalA, finalB) => Close(l, tx.sender, channelId, finalA, finalB)
    case DelegateSpend(delegate, allowance, _) => Delegate(l, tx.sender, delegate, allowance)
    case RegisterValidator(stake) => DeductStake(l, tx.sender, stake)
    case UnregisterValidator => if GetAccount(l, tx.sender).None? then Fail(l, AccountNotFound) else Done(l)
  }

  function IncrementNonce(l: Ledger, a: Bytes): Ledger
  {
    var account := GetOr(GetAccount(l, a), FRESH_ACCOUNT);
    PutAccount(l, a, account.(nonce := Add64(account.nonce, 1)))
  }

  function Apply(id: IdHash, l: Ledger, tx: Transaction): Outcome
  {
    if tx.nonce != NonceOf(l, tx.sender) then Fail(l, InvalidNonce)
    else
      var done := Execute(id, l, tx);
      if done.Ok() then Done(IncrementNonce(done.ledger, tx.sender)) else done
  }

  /** The accounts a successful transaction writes. */
  function Touched(l: Ledger, tx: Transaction): set<Bytes>
  {
    {tx.sender} +
    match tx.data
    case NativeTransfer(_) => {tx.receiver}
    case TransferAsset(_, _) => {tx.receiver}
    case MintNft(_, _, _, recipient) => {recipient}
    case TransferNft(_, _) => {tx.receiver}
    case CloseChannel(c, _, _, _) => if c in l.channels then {l.channels[c].partnerA, l.channels[c].partnerB} else {}
    case _ => {}
  }

  /** `validate_logic`. */
  predicate ValidLogic(tx: Transaction)
  {
    && tx.sender != []
    && match tx.data
       case NativeTransfer(amount) => amount != 0 && tx.receiver != [] && tx.sender != tx.receiver
       case CreateAsset(name, symbol, supply, _, _) => name != [] && symbol != [] && supply != 0
       case TransferAsset(_, amount) => amount != 0 && tx.receiver != []
       case CreateCollection(name, symbol, _) => name != [] && symbol != []
       case MintNft(c, _, _, _) => c != []
       case TransferNft(c, _) => c != [] && tx.receiver != []
       case OpenChannel(partner, amount, _) => partner != [] && amount != 0
       case CloseChannel(c, _, _, _) => c != []
       case DelegateSpend(delegate, allowance, _) => delegate != [] && allowance != 0
       case RegisterValidator(stake) => stake != 0
       case UnregisterValidator => true
  }

  // ---------------------------------------------------------------------------------------
  // What a transaction leaves alone
  // ---------------------------------------------------------------------------------------

  /** The account as an update sees it: fresh when there is none. */
  function Current(l: Ledger, a: Bytes): Account
  {
    GetOr(GetAccount(l, a), FRESH_ACCOUNT)
  }

  lemma CurrentPut(l: Ledger, b: Bytes, account: Account, a: Bytes)
    ensures Current(PutAccount(l, b, account), a) == if a == b then account else Current(l, a)
  {
  }

  predicate SameButBalance(x: Account, y: Account)
  {
    y == x.(balance := y.balance)
  }

  predicate SameButAssets(x: Account, y: Account)
  {
    y == x.(assets := y.assets)
  }

  predicate SameButItems(x: Account, y: Account)
  {
    y == x.(nfts := y.nfts)
  }

  lemma TransferFrame(l: Ledger, from: Bytes, to: Bytes, amount: U64, a: Bytes)
    ensures SameButBalance(Current(l, a), Current(TransferNative(l, from, to, amount).ledger, a))
  {
  }

  lemma MakeAssetFrame(l: Ledger, id: Bytes, asset: Asset, a: Bytes)
    ensures SameButAssets(Current(l, a), Current(MakeAsset(l, id, asset).ledger, a))
  {
  }

  lemma MoveAssetFrame(l: Ledger, from: Bytes, to: Bytes, id: Bytes, amount: U64, a: Bytes)
    ensures SameButAssets(Current(l, a), Current(MoveAsset(l, from, to, id, amount).ledger, a))
  {
  }

  lemma MintFrame(l: Ledger, sender: Bytes, c: Bytes, item: U64, metadata: Bytes, recipient: Bytes, a: Bytes)
    ensures SameButItems(Current(l, a), Current(Mint(l, sender, c, item, metadata, recipient).ledger, a))
  {
  }

  lemma MoveNftFrame(l: Ledger, from: Bytes, to: Bytes, c: Bytes, item: U64, a: Bytes)
    ensures SameButItems(Current(l, a), Current(MoveNft(l, from, to, c, item).ledger, a))
  {
  }

  lemma OpenFrame(l: Ledger, channel: Channel, a: Bytes)
    ensures SameButBalance(Current(l, a), Current(Open(l, channel).ledger, a))
  {
  }

  lemma CloseFrame(l: Ledger, sender: Bytes, id: Bytes, finalA: U64, finalB: U64, a: Bytes)
    ensures SameButBalance(Current(l, a), Current(Close(l, sender, id, finalA, finalB).ledger, a))
  {
    hide Credit;
    var o := Close(l, sender, id, finalA, finalB);
    if o.Ok() {
      var l1 := Marked(l, id);
      CreditFrame(l1, l.channels[id].partnerA, finalA, a);
      CreditFrame(Credit(l1, l.channels[id].partnerA, finalA), l.channels[id].partnerB, finalB, a);
    }
  }

  lemma CreditFrame(l: Ledger, b: Bytes, amount: U64, a: Bytes)
    ensures SameButBalance(Current(l, a), Current(Credit(l, b, amount), a))
  {
  }

  predicate MovesCoins(tx: Transaction)
  {
    tx.data.NativeTransfer? || tx.data.OpenChannel? || tx.data.CloseChannel? || tx.data.RegisterValidator?
  }

  predicate MovesAssets(tx: Transaction)
  {
    tx.data.CreateAsset? || tx.data.TransferAsset?
  }

  predicate MovesItems(tx: Transaction)
  {
    tx.data.MintNft? || tx.data.TransferNft?
  }

  /** Executing a transaction changes no nonce, and only the part of an account its kind is about. */
  lemma ExecuteFrame(id: IdHash, l: Ledger, tx: Transaction, a: Bytes)
    ensures var x, y := Current(l, a), Current(Execute(id, l, tx).ledger, a);
            && y.nonce == x.nonce
            && (!MovesCoins(tx) ==> y.balance == x.balance)
            && (!MovesAssets(tx) ==> y.assets == x.assets)
            && (!MovesItems(tx) ==> y.nfts == x.nfts)
  {
    hide Execute;
    if MovesCoins(tx) {
      CoinFrame(id, l, tx, a);
    } else if MovesAssets(tx) {
      AssetFrame(id, l, tx, a);
    } else if MovesItems(tx) {
      ItemFrame(id, l, tx, a);
    } else {
      OtherFrame(id, l, tx, a);
    }
  }

  lemma OtherFrame(id: IdHash, l: Ledger, tx: Transaction, a: Bytes)
    requires !MovesCoins(tx) && !MovesAssets(tx) && !MovesItems(tx)
    ensures var x, y := Current(l, a), Current(Execute(id, l, tx).ledger, a); y == x.(allowance := y.allowance)
  {
    hide TransferNative, MakeAsset, MoveAsset, Mint, MoveNft, Open, Close, DeductStake;
    assert tx.data.CreateCollection? || tx.data.DelegateSpend? || tx.data.UnregisterValidator?;
  }

  lemma CoinFrame(id: IdHash, l: Ledger, tx: Transaction, a: Bytes)
    requires MovesCoins(tx)
    ensures SameButBalance(Current(l, a), Current(Execute(id, l, tx).ledger, a))
  {
    hide TransferNative, Open, Close;
    match tx.data {
      case NativeTransfer(amount) => TransferFrame(l, tx.sender, tx.receiver, amount, a);
      case OpenChannel(partner, amount, duration) =>
        OpenFrame(l, Channel(id(tx.sender, tx.nonce, CHANNEL_NAME), tx.sender, partner, amount, duration, false), a);
      case CloseChannel(c, _, finalA, finalB) => CloseFrame(l, tx.sender, c, finalA, finalB, a);
      case _ =>
    }
  }

  lemma AssetFrame(id: IdHash, l: Ledger, tx: Transaction, a: Bytes)
    requires MovesAssets(tx)
    ensures SameButAssets(Current(l, a), Current(Execute(id, l, tx).ledger, a))
  {
    hide MakeAsset, MoveAsset;
    match tx.data {
      case CreateAsset(name, symbol, supply, decimals, metadata) =>
        var assetId := id(tx.sender, tx.nonce, name);
        MakeAssetFrame(l, assetId, Asset(assetId, tx.sender, name, symbol, supply, decimals, metadata), a);
      case TransferAsset(assetId, amount) => MoveAssetFrame(l, tx.sender, tx.receiver, assetId, amount, a);
    }
  }

  lemma ItemFrame(id: IdHash, l: Ledger, tx: Transaction, a: Bytes)
    requires MovesItems(tx)
    ensures SameButItems(Current(l, a), Current(Execute(id, l, tx).ledger, a))
  {
    hide Mint, MoveNft;
    match tx.data {
      case MintNft(c, item, metadata, recipient) => MintFrame(l, tx.sender, c, item, metadata, recipient, a);
      case TransferNft(c, item) => MoveNftFrame(l, tx.sender, tx.receiver, c, item, a);
    }
  }

  /** The nonce of the sender moves by one when the transaction succeeds, and no other nonce moves ever. */
  lemma ApplyNonce(id: IdHash, l: Ledger, tx: Transaction, a: Bytes)
    ensures var o := Apply(id, l, tx);
            && NonceOf(o.ledger, a) == (if o.Ok() && a == tx.sender then Add64(NonceOf(l, a), 1) else NonceOf(l, a))
            && (o.error == Some(InvalidNonce) <==> tx.nonce != NonceOf(l, tx.sender))
            && (o.Ok() ==> tx.nonce == NonceOf(l, tx.sender))
  {
    ExecuteNotNonceError(id, l, tx);
    ExecuteFrame(id, l, tx, a);
    NonceIsCurrent(l, a);
    NonceIsCurrent(Execute(id, l, tx).ledger, a);
    NonceIsCurrent(Apply(id, l, tx).ledger, a);
    hide Execute;
    CurrentPut(Execute(id, l, tx).ledger, tx.sender, Current(Execute(id, l, tx).ledger, tx.sender), a);
  }

  lemma NonceIsCurrent(l: Ledger, a: Bytes)
    ensures NonceOf(l, a) == Current(l, a).nonce
  {
  }

  lemma ExecuteNotNonceError(id: IdHash, l: Ledger, tx: Transaction)
    ensures Execute(id, l, tx).error != Some(InvalidNonce)
  {
  }

  // ---------------------------------------------------------------------------------------
  // Counting a sender's transactions
  // ---------------------------------------------------------------------------------------

  /** How many of the transactions are from `a`. */
  function CountOf(txs: seq<Transaction>, a: Bytes): nat
  {
    if txs == [] then 0
    else CountOf(txs[..|txs| - 1], a) + if txs[|txs| - 1].sender == a then 1 else 0
  }

  lemma {:induction false} CountCons(t: Transaction, txs: seq<Transaction>, a: Bytes)
    ensures CountOf([t] + txs, a) == CountOf(txs, a) + if t.sender == a then 1 else 0
    decreases |txs|
  {
    if txs == [] {
      assert [t][..0] == [];
    } else {
      var n := |txs| - 1;
      assert ([t] + txs)[..n + 1] == [t] + txs[..n];
      CountCons(t, txs[..n], a);
    }
  }

  lemma {:induction false} CountConcat(x: seq<Transaction>, y: seq<Transaction>, a: Bytes)
    ensures CountOf(x + y, a) == CountOf(x, a) + CountOf(y, a)
    decreases |y|
  {
    if y == [] {
      assert x + y == x;
    } else {
      var n := |y| - 1;
      assert (x + y)[..|x| + n] == x + y[..n];
      CountConcat(x, y[..n], a);
    }
  }
}
