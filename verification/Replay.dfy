/** Replay freedom: along any run, forks and restarts included, a sender's executed transactions carry
    consecutive nonces. */
module Replay {
  import opened Base
  import opened Ledger
  import opened Validators
  import opened Consensus
  import opened Node
  import opened Invariants

  function StoredNonce(accounts: map<Bytes, Account>, a: Bytes): U64
  {
    if a in accounts then accounts[a].nonce else 0
  }

  /** A nonce `count` transactions later, in `u64` arithmetic. */
  function Advance(nonce: U64, count: nat): U64
  {
    (nonce + count) % TWO_TO_THE_64
  }

  lemma AdvanceTwice(nonce: U64, x: nat, y: nat)
    ensures Advance(Advance(nonce, x), y) == Advance(nonce, x + y)
  {
  }

  /** The transactions of a successful block use up consecutive nonces of their senders. */
  lemma {:induction false} ExecuteAllNonces(c: Crypto, l: Ledger, txs: seq<Transaction>, a: Bytes)
    requires ExecuteAll(c, l, txs).Ok()
    ensures StoredNonce(ExecuteAll(c, l, txs).ledger.accounts, a) == Advance(StoredNonce(l.accounts, a), CountOf(txs, a))
    decreases |txs|
  {
    hide Apply, StoredNonce, Advance;
    if txs == [] {
      AdvanceNone(StoredNonce(l.accounts, a));
    } else {
      var l1 := Apply(c.id, l, txs[0]).ledger;
      ExecuteAllNonces(c, l1, txs[1..], a);
      StoredAfterApply(c, l, txs[0], a);
      CountFirst(txs, a);
      AdvanceTwice(StoredNonce(l.accounts, a), if txs[0].sender == a then 1 else 0, CountOf(txs[1..], a));
    }
  }

  lemma AdvanceNone(nonce: U64)
    ensures Advance(nonce, 0) == nonce
  {
  }

  lemma CountFirst(txs: seq<Transaction>, a: Bytes)
    requires txs != []
    ensures CountOf(txs, a) == (if txs[0].sender == a then 1 else 0) + CountOf(txs[1..], a)
  {
    CountCons(txs[0], txs[1..], a);
    assert [txs[0]] + txs[1..] == txs;
  }

  lemma StoredAfterApply(c: Crypto, l: Ledger, tx: Transaction, a: Bytes)
    requires Apply(c.id, l, tx).Ok()
    ensures StoredNonce(Apply(c.id, l, tx).ledger.accounts, a)
         == Advance(StoredNonce(l.accounts, a), if tx.sender == a then 1 else 0)
    ensures tx.nonce == StoredNonce(l.accounts, tx.sender)
  {
    ApplyNonce(c.id, l, tx, a);
    hide Apply;
  }

  lemma {:induction false} BlockNonces(c: Crypto, l: Ledger, txs: seq<Transaction>, k: nat)
    requires ExecuteAll(c, l, txs).Ok() && k < |txs|
    ensures txs[k].nonce == Advance(StoredNonce(l.accounts, txs[k].sender), CountOf(txs[..k], txs[k].sender))
    decreases |txs|
  {
    hide Apply, StoredNonce, Advance, CountOf;
    var a := txs[k].sender;
    StoredAfterApply(c, l, txs[0], a);
    if k == 0 {
      assert txs[..0] == [];
      CountNone(a);
      AdvanceNone(StoredNonce(l.accounts, a));
    } else {
      BlockNonces(c, Apply(c.id, l, txs[0]).ledger, txs[1..], k - 1);
      assert txs[..k][1..] == txs[1..][..k - 1];
      CountFirst(txs[..k], a);
      AdvanceTwice(StoredNonce(l.accounts, a), if txs[0].sender == a then 1 else 0, CountOf(txs[1..][..k - 1], a));
    }
  }

  /** The transactions a step executes for good. */
  ghost function StepTransactions(c: Crypto, n: Node, step: Step): seq<Transaction>
    requires n.head in n.tables.blocks
  {
    if step.Deliver? && Accepted(c, n, step.block) then step.block.transactions else []
  }

  /** The transactions the first `i` steps of a run executed for good, in order. */
  ghost function ExecutedTransactions(c: Crypto, states: seq<Node>, steps: seq<Step>, i: nat): seq<Transaction>
    requires IsRun(c, states, steps) && i <= |steps|
  {
    if i == 0 then []
    else ExecutedTransactions(c, states, steps, i - 1) + StepTransactions(c, states[i - 1], steps[i - 1])
  }

  lemma {:induction false} EndowAllNonces(accounts: map<Bytes, Account>, r: Registry, pubkeys: seq<Bytes>, a: Bytes)
    ensures StoredNonce(EndowAll(accounts, r, pubkeys).0, a) == StoredNonce(accounts, a)
    decreases |pubkeys|
  {
    if pubkeys != [] {
      var (accounts', s) := Endow(accounts, r, pubkeys[0]);
      EndowAllNonces(accounts', s, pubkeys[1..], a);
    }
  }

  lemma DeliverNonces(c: Crypto, n: Node, b: Block, n': Node, a: Bytes)
    requires HeadStored(n) && Next(c, n, Deliver(b), n')
    ensures StoredNonce(n'.accounts, a) == Advance(StoredNonce(n.accounts, a), CountOf(StepTransactions(c, n, Deliver(b)), a))
  {
    BlockAtomicity(c, n, b, n'.root);
    AddBlockEffect(c, n, b, n'.root);
    if Accepted(c, n, b) { ExecuteAllNonces(c, LedgerOf(n), b.transactions, a); }
    hide AddBlock, Accepted, ExecuteAll, Commits, Validate, StoredNonce, SeenHeader;
  }

  lemma NextNonces(c: Crypto, n: Node, step: Step, n': Node, a: Bytes)
    requires HeadStored(n) && Next(c, n, step, n')
    ensures StoredNonce(n'.accounts, a) == Advance(StoredNonce(n.accounts, a), CountOf(StepTransactions(c, n, step), a))
  {
    hide AddBlock, AddVote, Accepted, Commits, EndowAll, StoredNonce;
    if step.Deliver? {
      DeliverNonces(c, n, step.block, n', a);
    } else if step.Boot? {
      EndowAllNonces(n.accounts, n.validators, step.pubkeys, a);
    } else {
      if step.Cast? { CastFrame(c, n, step.vote); }
      assert n'.accounts == n.accounts;
    }
  }

  lemma {:induction false} RunNonces(c: Crypto, states: seq<Node>, steps: seq<Step>, i: nat, a: Bytes)
    requires IsRun(c, states, steps) && i <= |steps|
    ensures StoredNonce(states[i].accounts, a)
         == Advance(StoredNonce(states[0].accounts, a), CountOf(ExecutedTransactions(c, states, steps, i), a))
  {
    hide Next, StoredNonce, StepTransactions, Advance, CountOf;
    if i == 0 {
      assert ExecutedTransactions(c, states, steps, 0) == [];
      CountNone(a);
      AdvanceNone(StoredNonce(states[0].accounts, a));
    } else {
      var before, latest := ExecutedTransactions(c, states, steps, i - 1), StepTransactions(c, states[i - 1], steps[i - 1]);
      assert ExecutedTransactions(c, states, steps, i) == before + latest;
      RunNonces(c, states, steps, i - 1, a);
      NextNonces(c, states[i - 1], steps[i - 1], states[i], a);
      CountConcat(before, latest, a);
      AdvanceTwice(StoredNonce(states[0].accounts, a), CountOf(before, a), CountOf(latest, a));
    }
  }

  lemma CountNone(a: Bytes)
    ensures CountOf([], a) == 0
  {
  }

  lemma StepTransactionNonce(c: Crypto, n: Node, step: Step, k: nat)
    requires HeadStored(n) && k < |StepTransactions(c, n, step)|
    ensures var t := StepTransactions(c, n, step)[k];
            t.nonce == Advance(StoredNonce(n.accounts, t.sender), CountOf(StepTransactions(c, n, step)[..k], t.sender))
  {
    AddBlockEffect(c, n, step.block, None);
    BlockNonces(c, LedgerOf(n), step.block.transactions, k);
    hide AddBlock, Accepted, ExecuteAll, Validate, StoredNonce, SeenHeader;
  }

  lemma CountAcross(before: seq<Transaction>, latest: seq<Transaction>, j: nat, a: Bytes)
    requires j <= |latest|
    ensures CountOf((before + latest)[..|before| + j], a) == CountOf(before, a) + CountOf(latest[..j], a)
  {
    assert (before + latest)[..|before| + j] == before + latest[..j];
    CountConcat(before, latest[..j], a);
  }

  /** The nonce of every executed transaction: the sender's first one, advanced by the number of
      the sender's transactions executed before it. */
  lemma {:induction false} ConsecutiveNonces(c: Crypto, states: seq<Node>, steps: seq<Step>, i: nat, k: nat)
    requires IsRun(c, states, steps) && i <= |steps| && k < |ExecutedTransactions(c, states, steps, i)|
    ensures var e := ExecutedTransactions(c, states, steps, i);
            e[k].nonce == Advance(StoredNonce(states[0].accounts, e[k].sender), CountOf(e[..k], e[k].sender))
    decreases i
  {
    hide Next, StoredNonce, StepTransactions, Advance, CountOf;
    var before, latest := ExecutedTransactions(c, states, steps, i - 1), StepTransactions(c, states[i - 1], steps[i - 1]);
    var e := ExecutedTransactions(c, states, steps, i);
    if k < |before| {
      ConsecutiveNonces(c, states, steps, i - 1, k);
      assert e[..k] == before[..k];
    } else {
      var j, a := k - |before|, e[k].sender;
      StepTransactionNonce(c, states[i - 1], steps[i - 1], j);
      RunNonces(c, states, steps, i - 1, a);
      CountAcross(before, latest, j, a);
      AdvanceTwice(StoredNonce(states[0].accounts, a), CountOf(before, a), CountOf(latest[..j], a));
    }
  }

  lemma {:induction false} CountRange(txs: seq<Transaction>, a: Bytes)
    ensures CountOf(txs, a) <= |txs|
  {
    if txs != [] { CountRange(txs[..|txs| - 1], a); }
  }

  lemma CountBetween(txs: seq<Transaction>, k: nat, m: nat)
    requires k < m < |txs|
    ensures CountOf(txs[..k], txs[k].sender) < CountOf(txs[..m], txs[k].sender)
    ensures CountOf(txs[..m], txs[k].sender) <= CountOf(txs[..k], txs[k].sender) + (m - k)
  {
    var a := txs[k].sender;
    assert txs[..m] == txs[..k] + txs[k..m];
    CountConcat(txs[..k], txs[k..m], a);
    assert txs[k..m] == [txs[k]] + txs[k + 1..m];
    CountCons(txs[k], txs[k + 1..m], a);
    CountRange(txs[k + 1..m], a);
  }

  lemma AdvanceDiffers(nonce: U64, x: nat, y: nat)
    requires x < y < x + TWO_TO_THE_64
    ensures Advance(nonce, x) != Advance(nonce, y)
  {
  }

  /** No sender's nonce is executed twice, unless 2^64 transactions lie in between. */
  lemma NoReplay(c: Crypto, states: seq<Node>, steps: seq<Step>, k: nat, m: nat)
    requires IsRun(c, states, steps)
    requires k < m < |ExecutedTransactions(c, states, steps, |steps|)| && m - k < TWO_TO_THE_64
    ensures var e := ExecutedTransactions(c, states, steps, |steps|);
            e[k].sender == e[m].sender ==> e[k].nonce != e[m].nonce
  {
    var accounts := states[0].accounts;
    hide IsRun, CountOf, Advance, StoredNonce, ExecutedTransactions;
    var e := ExecutedTransactions(c, states, steps, |steps|);
    ConsecutiveNonces(c, states, steps, |steps|, k);
    ConsecutiveNonces(c, states, steps, |steps|, m);
    if e[k].sender == e[m].sender {
      SameSenderDiffers(e, k, m, StoredNonce(accounts, e[k].sender));
    }
  }

  lemma SameSenderDiffers(e: seq<Transaction>, k: nat, m: nat, first: U64)
    requires k < m < |e| && m - k < TWO_TO_THE_64 && e[k].sender == e[m].sender
    requires e[k].nonce == Advance(first, CountOf(e[..k], e[k].sender))
    requires e[m].nonce == Advance(first, CountOf(e[..m], e[k].sender))
    ensures e[k].nonce != e[m].nonce
  {
    CountBetween(e, k, m);
    AdvanceDiffers(first, CountOf(e[..k], e[k].sender), CountOf(e[..m], e[k].sender));
  }

  lemma {:induction false} ExecutedAreSigned(c: Crypto, l: Ledger, txs: seq<Transaction>, k: nat)
    requires ExecuteAll(c, l, txs).Ok() && k < |txs|
    ensures ValidLogic(txs[k]) && c.txSigned(txs[k])
    decreases |txs|
  {
    hide Apply, ValidLogic;
    if k > 0 { ExecutedAreSigned(c, Apply(c.id, l, txs[0]).ledger, txs[1..], k - 1); }
  }

  /** Every transaction a run executes for good is well formed and signed. */
  lemma {:induction false} RunExecutesSigned(c: Crypto, states: seq<Node>, steps: seq<Step>, i: nat, k: nat)
    requires IsRun(c, states, steps) && i <= |steps| && k < |ExecutedTransactions(c, states, steps, i)|
    ensures var t := ExecutedTransactions(c, states, steps, i)[k]; ValidLogic(t) && c.txSigned(t)
    decreases i
  {
    hide Next, ValidLogic, StepTransactions;
    var before := ExecutedTransactions(c, states, steps, i - 1);
    if k < |before| {
      RunExecutesSigned(c, states, steps, i - 1, k);
    } else {
      StepExecutesSigned(c, states[i - 1], steps[i - 1], k - |before|);
    }
  }

  lemma StepExecutesSigned(c: Crypto, n: Node, step: Step, k: nat)
    requires HeadStored(n) && k < |StepTransactions(c, n, step)|
    ensures var t := StepTransactions(c, n, step)[k]; ValidLogic(t) && c.txSigned(t)
  {
    AddBlockEffect(c, n, step.block, None);
    ExecutedAreSigned(c, LedgerOf(n), step.block.transactions, k);
    hide AddBlock, Accepted, ExecuteAll, Validate, SeenHeader, ValidLogic;
  }
}
