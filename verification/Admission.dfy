/** What the pool admits, against what can be executed. */
module Admission {
  import opened Base
  import opened Ledger
  import opened Mempool
  import opened Effects
  import opened Runs

  /** What a transaction that is admitted and due still needs to succeed. */
  predicate Lacks(id: IdHash, l: Ledger, tx: Transaction)
  {
    match tx.data
    case NativeTransfer(_) => false
    case TransferAsset(asset, _) => asset !in l.assets
    case OpenChannel(_, _, _) => ChannelIdOf(id, tx) in l.channels
    case CloseChannel(c, _, finalA, finalB) =>
      c !in l.channels || l.channels[c].isClosed
      || (tx.sender != l.channels[c].partnerA && tx.sender != l.channels[c].partnerB)
      || Add64(finalA, finalB) != l.channels[c].totalDeposit
    case CreateAsset(name, _, _, _, _) => id(tx.sender, tx.nonce, name) in l.assets
    case CreateCollection(name, _, _) => id(tx.sender, tx.nonce, name) in l.collections
    case MintNft(c, item, _, _) =>
      c !in l.collections || l.collections[c].issuer != tx.sender || item in l.collections[c].items
    case TransferNft(c, item) =>
      tx.sender !in l.accounts || c !in l.collections || item !in l.collections[c].items
      || l.collections[c].items[item].owner != tx.sender
    case DelegateSpend(_, _, _) => false
    case RegisterValidator(stake) => tx.sender !in l.accounts || BalanceOf(l, tx.sender) < stake
    case UnregisterValidator => tx.sender !in l.accounts
  }

  lemma DueSucceedsIff(id: IdHash, l: Ledger, tx: Transaction)
    requires ValidLogic(tx) && Funded(l, tx) && Due(l, tx)
    ensures Apply(id, l, tx).Ok() <==> !Lacks(id, l, tx)
  {
    hide Apply, NonceOf;
    if tx.data.NativeTransfer? {
      NativeTransferEffect(id, l, tx);
    } else if tx.data.TransferAsset? {
      TransferAssetEffect(id, l, tx, tx.data.assetId);
    } else if tx.data.OpenChannel? {
      OpenChannelEffect(id, l, tx, []);
    } else if tx.data.CloseChannel? {
      CloseChannelEffect(id, l, tx, []);
    } else if tx.data.CreateAsset? {
      CreateAssetEffect(id, l, tx, []);
    } else if tx.data.CreateCollection? {
      CreateCollectionEffect(id, l, tx, []);
    } else if tx.data.MintNft? {
      MintEffect(id, l, tx, [], 0);
    } else if tx.data.TransferNft? {
      TransferNftEffect(id, l, tx, [], 0);
    } else if tx.data.DelegateSpend? {
      DelegateSpendEffect(id, l, tx, []);
    } else if tx.data.RegisterValidator? {
      RegisterValidatorEffect(id, l, tx);
    } else {
      UnregisterValidatorEffect(id, l, tx);
    }
  }

  /** Whatever can be executed now is admitted while there is room. */
  lemma ExecutableIsAdmitted(id: IdHash, size: nat, capacity: nat, l: Ledger, tx: Transaction, signed: Transaction -> bool)
    requires size < capacity && ValidLogic(tx) && signed(tx) && Apply(id, l, tx).Ok()
    ensures Refusal(size, capacity, l, tx, signed).None?
  {
    AdmittedIff(size, capacity, l, tx, signed);
    hide Apply, ValidLogic, Refusal;
    if tx.data.NativeTransfer? {
      NativeTransferEffect(id, l, tx);
    } else if tx.data.TransferAsset? {
      TransferAssetEffect(id, l, tx, tx.data.assetId);
    } else if tx.data.OpenChannel? {
      OpenChannelEffect(id, l, tx, []);
    } else if tx.data.CloseChannel? {
      CloseChannelEffect(id, l, tx, []);
    }
    ApplyIsExecute(id, l, tx);
  }

  /** Of the admitted transactions whose nonce is due, exactly those succeed that lack nothing the pool does not
      check; a native transfer lacks nothing. */
  lemma AdmittedSucceedsIff(id: IdHash, size: nat, capacity: nat, l: Ledger, tx: Transaction, signed: Transaction -> bool)
    requires Refusal(size, capacity, l, tx, signed).None? && tx.nonce == NonceOf(l, tx.sender)
    ensures Apply(id, l, tx).Ok() <==> !Lacks(id, l, tx)
    ensures tx.data.NativeTransfer? ==> Apply(id, l, tx).Ok()
  {
    AdmittedIff(size, capacity, l, tx, signed);
    DueSucceedsIff(id, l, tx);
    hide Apply, ValidLogic, Refusal, NonceOf;
  }

  lemma {:induction false} NoncesGrow(id: IdHash, l: Ledger, txs: seq<Transaction>, a: Bytes)
    requires NonceOf(l, a) + CountOf(txs, a) < TWO_TO_THE_64
    ensures NonceOf(l, a) <= NonceOf(ApplyEach(id, l, txs), a) <= NonceOf(l, a) + CountOf(txs, a)
    decreases |txs|
  {
    hide Apply, NonceOf, CountOf;
    if txs != [] {
      assert txs == [txs[0]] + txs[1..];
      CountCons(txs[0], txs[1..], a);
      ApplyNonce(id, l, txs[0], a);
      NoncesGrow(id, Apply(id, l, txs[0]).ledger, txs[1..], a);
    }
  }

  /** A transaction with a stale nonce never becomes executable or admissible again, whatever is applied in between,
      as long as the sender's nonce does not wrap. */
  lemma StaleStaysStale(id: IdHash, size: nat, capacity: nat, l: Ledger, tx: Transaction, signed: Transaction -> bool,
        txs: seq<Transaction>)
    requires Refusal(size, capacity, l, tx, signed) == Some(StaleNonce)
    requires NonceOf(l, tx.sender) + CountOf(txs, tx.sender) < TWO_TO_THE_64
    ensures var l' := ApplyEach(id, l, txs);
            && tx.nonce < NonceOf(l, tx.sender) <= NonceOf(l', tx.sender)
            && Apply(id, l', tx).error == Some(InvalidNonce)
            && Refusal(size, capacity, l', tx, signed).Some?
            && (Funded(l', tx) ==> Refusal(size, capacity, l', tx, signed) == Some(StaleNonce))
  {
    var l' := ApplyEach(id, l, txs);
    AdmittedIff(size, capacity, l, tx, signed);
    AdmittedIff(size, capacity, l', tx, signed);
    NoncesGrow(id, l, txs, tx.sender);
    ApplyNonce(id, l', tx, tx.sender);
    hide Apply, ApplyEach, ValidLogic, Refusal, NonceOf, CountOf, Funded;
  }
}
