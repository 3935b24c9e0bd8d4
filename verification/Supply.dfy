/** Native coins are conserved by every transaction. */
module Supply {
  import opened Base
  import opened Totals
  import opened Ledger

  function Balances(accounts: map<Bytes, Account>): map<Bytes, nat>
  {
    map a | a in accounts :: accounts[a].balance
  }

  /** What an open channel holds; a closed one holds nothing. */
  function Deposits(channels: map<Bytes, Channel>): map<Bytes, nat>
  {
    map c | c in channels :: if channels[c].isClosed then 0 else channels[c].totalDeposit
  }

  ghost function Coins(l: Ledger): nat
  {
    Total(Balances(l.accounts))
  }

  ghost function Escrow(l: Ledger): nat
  {
    Total(Deposits(l.channels))
  }

  /** Spendable coins and coins held by channels. */
  ghost function Worth(l: Ledger): nat
  {
    Coins(l) + Escrow(l)
  }

  lemma PutCoins(l: Ledger, a: Bytes, account: Account)
    ensures Coins(PutAccount(l, a, account)) + BalanceOf(l, a) == Coins(l) + account.balance
    ensures BalanceOf(l, a) <= Coins(l)
  {
    hide Total;
    assert Balances(l.accounts[a := account]) == Balances(l.accounts)[a := account.balance];
    TotalUpdate(Balances(l.accounts), a, account.balance);
    TotalTwo(Balances(l.accounts), a, a);
    assert At(Balances(l.accounts), a) == BalanceOf(l, a);
  }

  /** Changing anything but the balance of an account moves no coins. */
  lemma PutKeepsCoins(l: Ledger, a: Bytes, account: Account)
    requires account.balance == BalanceOf(l, a)
    ensures Coins(PutAccount(l, a, account)) == Coins(l)
  {
    hide Coins;
    PutCoins(l, a, account);
  }

  lemma TransferKeepsCoins(l: Ledger, from: Bytes, to: Bytes, amount: U64)
    requires Coins(l) < TWO_TO_THE_64
    ensures Coins(TransferNative(l, from, to, amount).ledger) == Coins(l)
  {
    hide Coins;
    if TransferNative(l, from, to, amount).Ok() {
      var source := GetAccount(l, from).value;
      var l1 := PutAccount(l, from, source.(balance := source.balance - amount));
      PutCoins(l, from, source.(balance := source.balance - amount));
      var target := GetOr(GetAccount(l1, to), FRESH_ACCOUNT);
      PutCoins(l1, to, target.(balance := Add64(target.balance, amount)));
    }
  }

  // ---------------------------------------------------------------------------------------
  // Channels
  // ---------------------------------------------------------------------------------------

  lemma OpenMovesCoins(l: Ledger, channel: Channel)
    requires !channel.isClosed
    ensures var o := Open(l, channel);
            if o.Ok() then Worth(o.ledger) == Worth(l)
            else Coins(o.ledger) <= Coins(l) && Escrow(o.ledger) == Escrow(l)
  {
    hide Coins, Escrow;
    var source := GetAccount(l, channel.partnerA);
    if source.Some? && source.value.balance >= channel.totalDeposit {
      var debited := source.value.(balance := source.value.balance - channel.totalDeposit);
      PutCoins(l, channel.partnerA, debited);
      SameChannels(l, PutAccount(l, channel.partnerA, debited));
      if channel.id !in l.channels { AddChannel(PutAccount(l, channel.partnerA, debited), channel); }
    } else {
      SameChannels(l, Open(l, channel).ledger);
    }
  }

  lemma SameChannels(l: Ledger, l': Ledger)
    requires l.channels == l'.channels
    ensures Escrow(l) == Escrow(l')
  {
  }

  /** Registry changes move no spendable coins. */
  lemma SameAccounts(l: Ledger, l': Ledger)
    requires l.accounts == l'.accounts
    ensures Coins(l) == Coins(l')
  {
  }

  lemma AddChannel(l: Ledger, channel: Channel)
    requires channel.id !in l.channels && !channel.isClosed
    ensures Escrow(l.(channels := l.channels[channel.id := channel])) == Escrow(l) + channel.totalDeposit
    ensures Coins(l.(channels := l.channels[channel.id := channel])) == Coins(l)
  {
    assert Deposits(l.channels[channel.id := channel]) == Deposits(l.channels)[channel.id := channel.totalDeposit];
    TotalUpdate(Deposits(l.channels), channel.id, channel.totalDeposit);
  }

  /** One when the `u64` addition wraps. */
  function Wraps(a: U64, b: U64): nat
  {
    if a + b >= TWO_TO_THE_64 then 1 else 0
  }

  lemma CreditCoins(l: Ledger, a: Bytes, amount: U64)
    ensures Coins(Credit(l, a, amount)) + TWO_TO_THE_64 * Wraps(BalanceOf(l, a), amount) == Coins(l) + amount
  {
    hide Coins;
    var account := GetOr(GetAccount(l, a), FRESH_ACCOUNT);
    PutCoins(l, a, account.(balance := Add64(account.balance, amount)));
  }

  lemma MarkClosed(l: Ledger, id: Bytes)
    requires id in l.channels && !l.channels[id].isClosed
    ensures Escrow(Marked(l, id)) + l.channels[id].totalDeposit == Escrow(l)
  {
    var closed := l.channels[id := l.channels[id].(isClosed := true)];
    assert Deposits(closed) == Deposits(l.channels)[id := 0];
    TotalUpdate(Deposits(l.channels), id, 0);
  }

  /** How often the two payouts of a close wrap a balance. */
  function PayoutWraps(l: Ledger, id: Bytes, finalA: U64, finalB: U64): nat
    requires id in l.channels
  {
    var l1 := Credit(Marked(l, id), l.channels[id].partnerA, finalA);
    Wraps(BalanceOf(l, l.channels[id].partnerA), finalA) + Wraps(BalanceOf(l1, l.channels[id].partnerB), finalB)
  }

  /** The exact account of a successful close: coins appear when the sum of the final balances
      wraps, and vanish when a payout wraps. */
  lemma CloseEquation(l: Ledger, sender: Bytes, id: Bytes, finalA: U64, finalB: U64)
    requires Close(l, sender, id, finalA, finalB).Ok()
    ensures Worth(Close(l, sender, id, finalA, finalB).ledger) + TWO_TO_THE_64 * PayoutWraps(l, id, finalA, finalB)
         == Worth(l) + TWO_TO_THE_64 * Wraps(finalA, finalB)
  {
    hide Coins, Escrow;
    var channel := l.channels[id];
    var l1 := Marked(l, id);
    MarkClosed(l, id);
    SameAccounts(l, l1);
    CreditCoins(l1, channel.partnerA, finalA);
    CreditCoins(Credit(l1, channel.partnerA, finalA), channel.partnerB, finalB);
    SameChannels(l1, Close(l, sender, id, finalA, finalB).ledger);
  }

  /** A close conserves coins exactly when the sum of the final balances wraps as often as the payouts do. */
  lemma CloseConservesIff(l: Ledger, sender: Bytes, id: Bytes, finalA: U64, finalB: U64)
    requires Close(l, sender, id, finalA, finalB).Ok()
    ensures Worth(Close(l, sender, id, finalA, finalB).ledger) == Worth(l)
       <==> Wraps(finalA, finalB) == PayoutWraps(l, id, finalA, finalB)
  {
    CloseEquation(l, sender, id, finalA, finalB);
  }

  /** A wrapping sum passes the deposit check and creates coins. */
  lemma WrappingCloseCreatesCoins()
    ensures var l := Ledger(map[], map[], map[], map[[7] := Channel([7], [1], [2], 5, 0, false)]);
            var o := Close(l, [1], [7], TWO_TO_THE_64 - 1, 6);
            o.Ok() && Worth(o.ledger) == Worth(l) + TWO_TO_THE_64
  {
    var l := Ledger(map[], map[], map[], map[[7] := Channel([7], [1], [2], 5, 0, false)]);
    CloseEquation(l, [1], [7], TWO_TO_THE_64 - 1, 6);
    assert PayoutWraps(l, [7], TWO_TO_THE_64 - 1, 6) == 0;
  }

  lemma CloseMovesCoins(l: Ledger, sender: Bytes, id: Bytes, finalA: U64, finalB: U64)
    requires Worth(l) < TWO_TO_THE_64 && Wraps(finalA, finalB) == 0
    ensures var o := Close(l, sender, id, finalA, finalB);
            if o.Ok() then Worth(o.ledger) == Worth(l)
            else Coins(o.ledger) == Coins(l) && Escrow(o.ledger) <= Escrow(l)
  {
    var o := Close(l, sender, id, finalA, finalB);
    if o.Ok() {
      CloseEquation(l, sender, id, finalA, finalB);
    } else if id in l.channels && !l.channels[id].isClosed {
      MarkClosed(l, id);
      SameAccounts(l, Marked(l, id));
    }
  }

  // ---------------------------------------------------------------------------------------
  // Every transaction
  // ---------------------------------------------------------------------------------------

  /** The final balances of a channel close, if that is what the transaction is, add up without wrapping. */
  predicate ClosesWithoutWrap(tx: Transaction)
  {
    tx.data.CloseChannel? ==> Wraps(tx.data.finalA, tx.data.finalB) == 0
  }

  function StakeOf(tx: Transaction): nat
  {
    if tx.data.RegisterValidator? then tx.data.stake else 0
  }

  lemma ExecuteConserves(id: IdHash, l: Ledger, tx: Transaction)
    requires Worth(l) < TWO_TO_THE_64 && ClosesWithoutWrap(tx)
    ensures var o := Execute(id, l, tx);
            if o.Ok() then Worth(o.ledger) + StakeOf(tx) == Worth(l)
            else Worth(o.ledger) <= Worth(l)
  {
    hide Coins, Escrow;
    if tx.data.OpenChannel? {
      OpenMovesCoins(l, Channel(id(tx.sender, tx.nonce, CHANNEL_NAME), tx.sender, tx.data.partner, tx.data.amount, tx.data.duration, false));
    } else if tx.data.CloseChannel? {
      CloseMovesCoins(l, tx.sender, tx.data.channelId, tx.data.finalA, tx.data.finalB);
    } else {
      ExecuteKeepsChannels(id, l, tx);
      SameChannels(l, Execute(id, l, tx).ledger);
      if tx.data.NativeTransfer? {
        TransferKeepsCoins(l, tx.sender, tx.receiver, tx.data.amount);
      } else if tx.data.RegisterValidator? {
        DeductTakesStake(l, tx.sender, tx.data.stake);
      } else {
        ExecuteKeepsCoins(id, l, tx);
      }
    }
  }

  lemma DeductTakesStake(l: Ledger, a: Bytes, stake: U64)
    ensures var o := DeductStake(l, a, stake);
            Coins(o.ledger) + (if o.Ok() then stake else 0) == Coins(l)
  {
    hide Coins;
    var account := GetAccount(l, a);
    if account.Some? && account.value.balance >= stake {
      PutCoins(l, a, account.value.(balance := account.value.balance - stake));
    }
  }

  lemma ExecuteKeepsChannels(id: IdHash, l: Ledger, tx: Transaction)
    requires !tx.data.OpenChannel? && !tx.data.CloseChannel?
    ensures Execute(id, l, tx).ledger.channels == l.channels
  {
    match tx.data {
      case _ =>
    }
  }

  /** Assets, collections, items and allowances move no coins. */
  lemma ExecuteKeepsCoins(id: IdHash, l: Ledger, tx: Transaction)
    requires !MovesCoins(tx)
    ensures Coins(Execute(id, l, tx).ledger) == Coins(l)
  {
    hide Execute, Total;
    var l' := Execute(id, l, tx).ledger;
    forall a ensures At(Balances(l.accounts), a) == At(Balances(l'.accounts), a) {
      ExecuteFrame(id, l, tx, a);
      BalanceAt(l, a);
      BalanceAt(l', a);
    }
    TotalSame(Balances(l.accounts), Balances(l'.accounts));
  }

  lemma BalanceAt(l: Ledger, a: Bytes)
    ensures At(Balances(l.accounts), a) == Current(l, a).balance
  {
  }

  /** A receiver's balance and both payouts of a close are true sums: no addition to a balance wraps. */
  lemma NoBalanceWraps(id: IdHash, l: Ledger, tx: Transaction)
    requires Worth(l) < TWO_TO_THE_64 && ClosesWithoutWrap(tx) && Execute(id, l, tx).Ok()
    ensures tx.data.NativeTransfer? ==> BalanceOf(l, tx.receiver) + tx.data.amount < TWO_TO_THE_64
    ensures tx.data.CloseChannel? ==> PayoutWraps(l, tx.data.channelId, tx.data.finalA, tx.data.finalB) == 0
  {
    hide Coins, Escrow, PayoutWraps;
    if tx.data.NativeTransfer? {
      TwoBalances(l, tx.sender, tx.receiver);
    } else if tx.data.CloseChannel? {
      CloseEquation(l, tx.sender, tx.data.channelId, tx.data.finalA, tx.data.finalB);
    }
  }

  lemma TwoBalances(l: Ledger, a: Bytes, b: Bytes)
    requires a != b
    ensures BalanceOf(l, a) + BalanceOf(l, b) <= Coins(l)
  {
    hide Total;
    TotalTwo(Balances(l.accounts), a, b);
  }

  /** No inflation: balances and open deposits change by exactly the stake a registration takes out,
      and a failed transaction creates nothing. */
  lemma ApplyConserves(id: IdHash, l: Ledger, tx: Transaction)
    requires Worth(l) < TWO_TO_THE_64 && ClosesWithoutWrap(tx)
    ensures var o := Apply(id, l, tx);
            if o.Ok() then Worth(o.ledger) + StakeOf(tx) == Worth(l)
            else Worth(o.ledger) <= Worth(l)
  {
    hide Coins, Escrow;
    ExecuteConserves(id, l, tx);
    var l1 := Execute(id, l, tx).ledger;
    var account := GetOr(GetAccount(l1, tx.sender), FRESH_ACCOUNT);
    PutKeepsCoins(l1, tx.sender, account.(nonce := Add64(account.nonce, 1)));
    SameChannels(l1, IncrementNonce(l1, tx.sender));
  }
}
