/** The pool of unconfirmed transactions and the selection of a block's transactions. */
module Mempool {
  import opened Base
  import opened Ledger

  datatype PoolError = PoolFull | Malformed | TooPoor | Unknown | StaleNonce

  /** Why a transaction is refused, checked in this order; the accounts are those `l` shows. */
  function Refusal(size: nat, capacity: nat, l: Ledger, tx: Transaction, signed: Transaction -> bool): Option<PoolError>
  {
    if size >= capacity then Some(PoolFull)
    else if !ValidLogic(tx) || !signed(tx) then Some(Malformed)
    else
      var shortfall := match tx.data
        case NativeTransfer(amount) => if BalanceOf(l, tx.sender) < amount then Some(TooPoor) else None
        case TransferAsset(assetId, amount) =>
          if GetAccount(l, tx.sender).None? then Some(Unknown)
          else if HoldingOf(GetAccount(l, tx.sender).value, assetId) < amount then Some(TooPoor)
          else None
        case OpenChannel(_, amount, _) => if BalanceOf(l, tx.sender) < amount then Some(TooPoor) else None
        case CloseChannel(c, _, _, _) => if c !in l.channels then Some(Unknown) else None
        case _ => None;
      if shortfall.Some? then shortfall
      else if tx.nonce < NonceOf(l, tx.sender) then Some(StaleNonce)
      else None
  }

  /** The check the pool makes on the funds of a transaction. */
  predicate Funded(l: Ledger, tx: Transaction)
  {
    && (tx.data.NativeTransfer? ==> tx.data.amount <= BalanceOf(l, tx.sender))
    && (tx.data.OpenChannel? ==> tx.data.amount <= BalanceOf(l, tx.sender))
    && (tx.data.TransferAsset? ==>
          tx.sender in l.accounts && tx.data.amount <= HoldingOf(Current(l, tx.sender), tx.data.assetId))
    && (tx.data.CloseChannel? ==> tx.data.channelId in l.channels)
  }

  /** A transaction is admitted exactly when there is room, it is well formed and signed, it is funded, and its
      nonce is not below its sender's; and each refusal names a check that fails. */
  lemma AdmittedIff(size: nat, capacity: nat, l: Ledger, tx: Transaction, signed: Transaction -> bool)
    ensures var refusal := Refusal(size, capacity, l, tx, signed);
            && (refusal.None? <==>
                  size < capacity && ValidLogic(tx) && signed(tx) && Funded(l, tx) && tx.nonce >= NonceOf(l, tx.sender))
            && (refusal == Some(PoolFull) <==> size >= capacity)
            && (refusal == Some(Malformed) <==> size < capacity && !(ValidLogic(tx) && signed(tx)))
            && (refusal in {Some(TooPoor), Some(Unknown)} <==>
                  size < capacity && ValidLogic(tx) && signed(tx) && !Funded(l, tx))
  {
    hide ValidLogic, NonceOf;
    if tx.data.NativeTransfer? {
    } else if tx.data.TransferAsset? {
    } else if tx.data.OpenChannel? {
    } else if tx.data.CloseChannel? {
    } else {
      assert Funded(l, tx);
    }
  }

  ghost predicate SortedByNonce(txs: seq<Transaction>)
  {
    forall i, j :: 0 <= i < j < |txs| ==> txs[i].nonce <= txs[j].nonce
  }

  /** A selection: some iteration of the pool, sorted by nonce and cut at the limit. */
  ghost predicate Selection(pool: set<Transaction>, limit: nat, txs: seq<Transaction>, all: seq<Transaction>)
  {
    && IsOrdering(all, pool) && SortedByNonce(all)
    && txs == all[..if limit < |all| then limit else |all|]
  }

  class Pool {
    var transactions: map<Bytes, Transaction>
    const capacity: nat

    /** Every transaction is stored under its own signature. */
    ghost predicate Valid()
      reads this
    {
      forall k :: k in transactions ==> transactions[k].signature == k
    }

    constructor (capacity: nat)
      ensures Valid() && transactions == map[] && this.capacity == capacity
    {
      transactions := map[];
      this.capacity := capacity;
    }

    method AddTransaction(tx: Transaction, l: Ledger, signed: Transaction -> bool) returns (refusal: Option<PoolError>)
      requires Valid()
      modifies this
      ensures Valid()
      ensures refusal == Refusal(|old(transactions)|, capacity, l, tx, signed)
      ensures refusal.None? <==>
        && |old(transactions)| < capacity && ValidLogic(tx) && signed(tx)
        && Funded(l, tx) && tx.nonce >= NonceOf(l, tx.sender)
      ensures transactions == if refusal.None? then old(transactions)[tx.signature := tx] else old(transactions)
    {
      AdmittedIff(|transactions|, capacity, l, tx, signed);
      if |transactions| >= capacity { return Some(PoolFull); }
      if !ValidLogic(tx) || !signed(tx) { return Some(Malformed); }
      match tx.data {
        case NativeTransfer(amount) =>
          if BalanceOf(l, tx.sender) < amount { return Some(TooPoor); }
        case TransferAsset(assetId, amount) =>
          var account := GetAccount(l, tx.sender);
          if account.None? { return Some(Unknown); }
          if HoldingOf(account.value, assetId) < amount { return Some(TooPoor); }
        case OpenChannel(_, amount, _) =>
          if BalanceOf(l, tx.sender) < amount { return Some(TooPoor); }
        case CloseChannel(c, _, _, _) =>
          if c !in l.channels { return Some(Unknown); }
        case _ =>
      }
      if tx.nonce < NonceOf(l, tx.sender) { return Some(StaleNonce); }
      transactions := transactions[tx.signature := tx];
      refusal := None;
    }

    /** `all` is the whole pool in the order the values were iterated and sorted. */
    method GetTransactionsForBlock(limit: nat) returns (txs: seq<Transaction>, ghost all: seq<Transaction>)
      requires Valid()
      ensures Selection(transactions.Values, limit, txs, all)
      ensures |txs| <= limit && forall i :: 0 <= i < |txs| ==> txs[i] in transactions.Values
    {
      var values := CollectValues();
      var sorted := SortByNonce(values);
      all := sorted;
      assert forall k :: k in sorted <==> k in multiset(sorted);
      assert forall k :: k in values <==> k in multiset(values);
      SamePermutation(values, sorted);
      txs := sorted[..if limit < |sorted| then limit else |sorted|];
    }

    /** `values().cloned().collect()`, in any order. */
    method CollectValues() returns (values: seq<Transaction>)
      requires Valid()
      ensures IsOrdering(values, transactions.Values)
    {
      values := [];
      var rest := transactions;
      while rest != map[]
        invariant rest.Items <= transactions.Items
        invariant forall t :: t in values <==> t.signature in transactions && transactions[t.signature] == t && t.signature !in rest
        invariant forall i, j :: 0 <= i < j < |values| ==> values[i] != values[j]
        decreases |rest|
      {
        var k :| k in rest;
        assert (k, rest[k]) in rest.Items;
        values := values + [rest[k]];
        rest := rest - {k};
        assert forall p :: p in rest ==> (p, rest[p]) in rest.Items;
      }
    }

    method RemoveTransactions(txs: seq<Transaction>)
      requires Valid()
      modifies this
      ensures Valid()
      ensures transactions == old(transactions) - set i | 0 <= i < |txs| :: txs[i].signature
    {
      for n := 0 to |txs|
        invariant Valid()
        invariant transactions == old(transactions) - set i | 0 <= i < n :: txs[i].signature
      {
        transactions := transactions - {txs[n].signature};
      }
    }
  }

  lemma SamePermutation(a: seq<Transaction>, b: seq<Transaction>)
    requires multiset(a) == multiset(b)
    requires forall i, j :: 0 <= i < j < |a| ==> a[i] != a[j]
    ensures forall i, j :: 0 <= i < j < |b| ==> b[i] != b[j]
  {
    forall i, j | 0 <= i < j < |b| ensures b[i] != b[j] {
      if b[i] == b[j] {
        DoubleCounts(b, i, j);
        SingleCounts(a, b[i]);
      }
    }
  }

  lemma DoubleCounts(s: seq<Transaction>, i: nat, j: nat)
    requires i < j < |s| && s[i] == s[j]
    ensures multiset(s)[s[i]] >= 2
  {
    assert s == s[..j] + s[j..];
    assert s[i] in multiset(s[..j]) && s[j] in multiset(s[j..]);
  }

  lemma {:induction false} SingleCounts(s: seq<Transaction>, t: Transaction)
    requires forall i, j :: 0 <= i < j < |s| ==> s[i] != s[j]
    ensures multiset(s)[t] <= 1
  {
    if s != [] {
      SingleCounts(s[1..], t);
      assert s == [s[0]] + s[1..];
      if t == s[0] { assert t !in s[1..]; }
    }
  }

  /** The insertion step of a stable sort by nonce. */
  method InsertByNonce(sorted: seq<Transaction>, t: Transaction) returns (r: seq<Transaction>)
    requires SortedByNonce(sorted)
    ensures SortedByNonce(r) && multiset(r) == multiset(sorted) + multiset{t}
  {
    var i := |sorted|;
    while i > 0 && sorted[i - 1].nonce > t.nonce
      invariant 0 <= i <= |sorted|
      invariant i < |sorted| ==> t.nonce <= sorted[i].nonce
    {
      i := i - 1;
    }
    r := sorted[..i] + [t] + sorted[i..];
    SpliceCounts(sorted, i, t);
    SpliceSorted(sorted, i, t);
  }

  lemma SpliceCounts(s: seq<Transaction>, i: nat, t: Transaction)
    requires i <= |s|
    ensures multiset(s[..i] + [t] + s[i..]) == multiset(s) + multiset{t}
  {
    assert s == s[..i] + s[i..];
  }

  lemma SpliceSorted(s: seq<Transaction>, i: nat, t: Transaction)
    requires SortedByNonce(s) && i <= |s|
    requires i > 0 ==> s[i - 1].nonce <= t.nonce
    requires i < |s| ==> t.nonce <= s[i].nonce
    ensures SortedByNonce(s[..i] + [t] + s[i..])
  {
    var r := s[..i] + [t] + s[i..];
    assert forall j :: 0 <= j < |r| ==> r[j] == if j < i then s[j] else if j == i then t else s[j - 1];
  }

  method SortByNonce(txs: seq<Transaction>) returns (sorted: seq<Transaction>)
    ensures SortedByNonce(sorted) && multiset(sorted) == multiset(txs)
  {
    sorted := [];
    for i := 0 to |txs|
      invariant SortedByNonce(sorted) && multiset(sorted) == multiset(txs[..i])
    {
      sorted := InsertByNonce(sorted, txs[i]);
      assert txs[..i + 1] == txs[..i] + [txs[i]];
    }
    assert txs[..|txs|] == txs;
  }

  // ---------------------------------------------------------------------------------------
  // Nonces of a selection
  // ---------------------------------------------------------------------------------------

  /** Every transaction carries the nonce its sender has after the earlier ones. */
  ghost predicate InOrder(txs: seq<Transaction>, l: Ledger)
  {
    forall i :: 0 <= i < |txs| ==> txs[i].nonce == NonceOf(l, txs[i].sender) + CountOf(txs[..i], txs[i].sender)
  }

  /** Each sender's nonces are distinct, start at the state nonce and leave no gap. */
  ghost predicate GapFree(pool: set<Transaction>, l: Ledger)
  {
    && (forall t :: t in pool ==> t.nonce >= NonceOf(l, t.sender))
    && (forall t, u :: t in pool && u in pool && t.sender == u.sender && t.nonce == u.nonce ==> t == u)
    && (forall t :: t in pool && t.nonce > NonceOf(l, t.sender) ==> HasNonce(pool, t.sender, t.nonce - 1))
  }

  ghost predicate HasNonce(pool: set<Transaction>, a: Bytes, nonce: nat)
  {
    exists t :: t in pool && t.sender == a && t.nonce == nonce
  }

  /** No gap means every nonce from the state nonce up to one in the pool is in the pool. */
  lemma {:induction false} DownTo(pool: set<Transaction>, l: Ledger, a: Bytes, high: nat, low: nat)
    requires GapFree(pool, l) && HasNonce(pool, a, high) && NonceOf(l, a) <= low <= high
    ensures HasNonce(pool, a, low)
    decreases high
  {
    if low < high {
      var t :| t in pool && t.sender == a && t.nonce == high;
      DownTo(pool, l, a, high - 1, low);
    }
  }

  /** In an ordered list the first `CountOf` nonces of a sender all occur. */
  lemma {:induction false} Covers(txs: seq<Transaction>, l: Ledger, a: Bytes, c: nat) returns (j: nat)
    requires InOrder(txs, l) && c < CountOf(txs, a)
    ensures j < |txs| && txs[j].sender == a && txs[j].nonce == NonceOf(l, a) + c
  {
    var n := |txs| - 1;
    assert forall i :: 0 <= i < n ==> txs[..n][..i] == txs[..i];
    if c < CountOf(txs[..n], a) {
      j := Covers(txs[..n], l, a, c);
    } else {
      j := n;
    }
  }

  /** The nonce of the next transaction of a sorted pool, when the earlier ones are in order. */
  lemma NextNonce(pool: set<Transaction>, all: seq<Transaction>, l: Ledger, i: nat)
    requires IsOrdering(all, pool) && SortedByNonce(all) && GapFree(pool, l)
    requires i < |all| && InOrder(all[..i], l)
    ensures all[i].nonce == NonceOf(l, all[i].sender) + CountOf(all[..i], all[i].sender)
  {
    NotTooLow(pool, all, l, i);
    NotTooHigh(pool, all, l, i);
  }

  lemma NotTooLow(pool: set<Transaction>, all: seq<Transaction>, l: Ledger, i: nat)
    requires IsOrdering(all, pool) && GapFree(pool, l)
    requires i < |all| && InOrder(all[..i], l)
    ensures all[i].nonce >= NonceOf(l, all[i].sender) + CountOf(all[..i], all[i].sender)
  {
    hide NonceOf, CountOf;
    var t, n := all[i], NonceOf(l, all[i].sender);
    assert t in pool;
    assert forall j :: 0 <= j < i ==> all[j] in pool && all[j] != t;
    if t.nonce < n + CountOf(all[..i], t.sender) {
      var j := Covers(all[..i], l, t.sender, t.nonce - n);
    }
  }

  lemma NotTooHigh(pool: set<Transaction>, all: seq<Transaction>, l: Ledger, i: nat)
    requires IsOrdering(all, pool) && SortedByNonce(all) && GapFree(pool, l)
    requires i < |all| && InOrder(all[..i], l)
    ensures all[i].nonce <= NonceOf(l, all[i].sender) + CountOf(all[..i], all[i].sender)
  {
    hide NonceOf, CountOf, GapFree, InOrder;
    var t, n, c := all[i], NonceOf(l, all[i].sender), CountOf(all[..i], all[i].sender);
    if t.nonce > n + c {
      assert t in pool && HasNonce(pool, t.sender, t.nonce);
      DownTo(pool, l, t.sender, t.nonce, n + c);
      var u :| u in pool && u.sender == t.sender && u.nonce == n + c;
      var j :| 0 <= j < |all| && all[j] == u;
      assert j < i;
      NotBefore(all[..i], l, j);
    }
  }

  /** A transaction of an ordered list has a nonce below the state nonce plus the count. */
  lemma {:induction false} NotBefore(txs: seq<Transaction>, l: Ledger, j: nat)
    requires InOrder(txs, l) && j < |txs|
    ensures txs[j].nonce < NonceOf(l, txs[j].sender) + CountOf(txs, txs[j].sender)
  {
    hide NonceOf, InOrder;
    var n := |txs| - 1;
    if j < n {
      PrefixInOrder(txs, l, n);
      NotBefore(txs[..n], l, j);
    } else {
      NotLow(txs, l, j);
    }
  }

  /** A pool sorted by nonce, however its values were iterated, is in order exactly when it is gap-free. */
  lemma OrderedIffGapFree(pool: set<Transaction>, all: seq<Transaction>, l: Ledger)
    requires IsOrdering(all, pool) && SortedByNonce(all)
    ensures InOrder(all, l) <==> GapFree(pool, l)
  {
    if GapFree(pool, l) { GapFreeOrdered(pool, all, l, |all|); assert all[..|all|] == all; }
    if InOrder(all, l) { OrderedGapFree(pool, all, l); }
  }

  lemma {:induction false} GapFreeOrdered(pool: set<Transaction>, all: seq<Transaction>, l: Ledger, i: nat)
    requires IsOrdering(all, pool) && SortedByNonce(all) && GapFree(pool, l) && i <= |all|
    ensures InOrder(all[..i], l)
  {
    hide GapFree, IsOrdering, SortedByNonce, NonceOf, CountOf;
    if i > 0 {
      GapFreeOrdered(pool, all, l, i - 1);
      NextNonce(pool, all, l, i - 1);
      assert forall j :: 0 <= j < i ==> all[..i][..j] == all[..j];
      assert forall j :: 0 <= j < i - 1 ==> all[..i - 1][..j] == all[..j];
    }
  }

  lemma OrderedGapFree(pool: set<Transaction>, all: seq<Transaction>, l: Ledger)
    requires IsOrdering(all, pool) && InOrder(all, l)
    ensures GapFree(pool, l)
  {
    hide CountOf, NonceOf, InOrder;
    forall t | t in pool ensures t.nonce >= NonceOf(l, t.sender) {
      var i :| 0 <= i < |all| && all[i] == t;
      NotLow(all, l, i);
    }
    forall t, u | t in pool && u in pool && t.sender == u.sender && t.nonce == u.nonce ensures t == u {
      var i :| 0 <= i < |all| && all[i] == t;
      var j :| 0 <= j < |all| && all[j] == u;
      if i < j { Earlier(all, l, i, j); }
      if j < i { Earlier(all, l, j, i); }
    }
    forall t | t in pool && t.nonce > NonceOf(l, t.sender) ensures HasNonce(pool, t.sender, t.nonce - 1) {
      var i :| 0 <= i < |all| && all[i] == t;
      PrefixInOrder(all, l, i);
      NotLow(all, l, i);
      var j := Covers(all[..i], l, t.sender, t.nonce - NonceOf(l, t.sender) - 1);
      assert all[j] in pool;
    }
  }

  lemma NotLow(txs: seq<Transaction>, l: Ledger, i: nat)
    requires InOrder(txs, l) && i < |txs|
    ensures txs[i].nonce >= NonceOf(l, txs[i].sender)
    ensures txs[i].nonce > NonceOf(l, txs[i].sender) ==> CountOf(txs[..i], txs[i].sender) == txs[i].nonce - NonceOf(l, txs[i].sender)
  {
  }

  lemma PrefixInOrder(txs: seq<Transaction>, l: Ledger, k: nat)
    requires InOrder(txs, l) && k <= |txs|
    ensures InOrder(txs[..k], l)
  {
    assert forall i :: 0 <= i < k ==> txs[..k][..i] == txs[..i];
  }

  lemma Earlier(txs: seq<Transaction>, l: Ledger, i: nat, j: nat)
    requires InOrder(txs, l) && i < j < |txs| && txs[i].sender == txs[j].sender
    ensures txs[i].nonce < txs[j].nonce
  {
    PrefixInOrder(txs, l, j);
    NotBefore(txs[..j], l, i);
  }

  /** Executed in order, up to the first transaction that fails for another reason, every
      transaction passes the nonce check. */
  ghost predicate PassesNonces(id: IdHash, l: Ledger, txs: seq<Transaction>)
    decreases |txs|
  {
    txs == [] || (
      txs[0].nonce == NonceOf(l, txs[0].sender) &&
      (Apply(id, l, txs[0]).Ok() ==> PassesNonces(id, Apply(id, l, txs[0]).ledger, txs[1..])))
  }

  lemma OrderAfterFirst(id: IdHash, l: Ledger, txs: seq<Transaction>)
    requires txs != [] && InOrder(txs, l) && Apply(id, l, txs[0]).Ok()
    ensures InOrder(txs[1..], Apply(id, l, txs[0]).ledger)
  {
    hide Apply;
    var l' := Apply(id, l, txs[0]).ledger;
    forall i | 0 <= i < |txs| - 1
      ensures txs[1..][i].nonce == NonceOf(l', txs[1..][i].sender) + CountOf(txs[1..][..i], txs[1..][i].sender)
    {
      NonceAfterFirst(id, l, txs, i);
    }
  }

  lemma NonceAfterFirst(id: IdHash, l: Ledger, txs: seq<Transaction>, i: nat)
    requires i + 1 < |txs| && InOrder(txs, l) && Apply(id, l, txs[0]).Ok()
    ensures var t := txs[i + 1];
            t.nonce == NonceOf(Apply(id, l, txs[0]).ledger, t.sender) + CountOf(txs[1..][..i], t.sender)
  {
    hide Apply, NonceOf;
    var t := txs[i + 1];
    assert txs[..i + 1] == [txs[0]] + txs[1..][..i];
    CountCons(txs[0], txs[1..][..i], t.sender);
    ApplyNonce(id, l, txs[0], t.sender);
  }

  lemma {:induction false} InOrderPasses(id: IdHash, l: Ledger, txs: seq<Transaction>)
    requires InOrder(txs, l)
    ensures PassesNonces(id, l, txs)
    decreases |txs|
  {
    hide Apply, NonceOf;
    if txs != [] {
      assert txs[..0] == [];
      var o := Apply(id, l, txs[0]);
      if o.Ok() {
        OrderAfterFirst(id, l, txs);
        InOrderPasses(id, o.ledger, txs[1..]);
      }
    }
  }

  /** Whatever the limit, a selection from a gap-free pool passes every nonce check. */
  lemma SelectionPassesNonces(id: IdHash, pool: set<Transaction>, limit: nat, txs: seq<Transaction>,
        all: seq<Transaction>, l: Ledger)
    requires Selection(pool, limit, txs, all) && GapFree(pool, l)
    ensures PassesNonces(id, l, txs)
  {
    OrderedIffGapFree(pool, all, l);
    PrefixInOrder(all, l, |txs|);
    InOrderPasses(id, l, txs);
  }
}
