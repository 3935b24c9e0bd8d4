/** No addition or subtraction of coins or stakes wraps, in any step of any run that starts within 64 bits. */
module Overflow {
  import opened Base
  import opened Totals
  import opened Ledger
  import opened Supply
  import opened Validators
  import opened Consensus
  import opened Node
  import opened Invariants
  import opened Safety
  import opened Inflation
  import opened Finality
  import opened Text

  // ---------------------------------------------------------------------------------------
  // Execution
  // ---------------------------------------------------------------------------------------

  /** What a successful transaction adds to balances is added without wrapping. */
  predicate AdditionsFit(l: Ledger, tx: Transaction)
  {
    && (tx.data.NativeTransfer? ==> BalanceOf(l, tx.receiver) + tx.data.amount < TWO_TO_THE_64)
    && (tx.data.CloseChannel? && tx.data.channelId in l.channels ==>
          PayoutWraps(l, tx.data.channelId, tx.data.finalA, tx.data.finalB) == 0)
  }

  predicate ExecutionFits(c: Crypto, l: Ledger, txs: seq<Transaction>)
    decreases |txs|
  {
    txs == [] || !Runnable(c, txs[0]) || (
      var o := Apply(c.id, l, txs[0]);
      o.Ok() ==> AdditionsFit(l, txs[0]) && ExecutionFits(c, o.ledger, txs[1..]))
  }

  lemma {:induction false} ExecutionNeverWraps(c: Crypto, l: Ledger, txs: seq<Transaction>)
    requires Worth(l) < TWO_TO_THE_64 && ClosesFit(txs)
    ensures ExecutionFits(c, l, txs)
    decreases |txs|
  {
    hide Worth, Apply, ClosesWithoutWrap, AdditionsFit;
    if txs != [] && Runnable(c, txs[0]) && Apply(c.id, l, txs[0]).Ok() {
      AppliedFits(c.id, l, txs[0]);
      ApplyConserves(c.id, l, txs[0]);
      ExecutionNeverWraps(c, Apply(c.id, l, txs[0]).ledger, txs[1..]);
    }
  }

  lemma AppliedFits(id: IdHash, l: Ledger, tx: Transaction)
    requires Worth(l) < TWO_TO_THE_64 && ClosesWithoutWrap(tx) && Apply(id, l, tx).Ok()
    ensures AdditionsFit(l, tx)
  {
    NoBalanceWraps(id, l, tx);
    hide Worth, Execute, PayoutWraps, NonceOf;
  }

  // ---------------------------------------------------------------------------------------
  // Registrations and refunds
  // ---------------------------------------------------------------------------------------

  /** A registration, an unregistration and its refund keep to 64 bits. */
  predicate RegistryFits(n: Node, tx: Transaction)
  {
    && (tx.data.RegisterValidator? && tx.data.stake >= MIN_STAKE && tx.sender !in n.validators.infos ==>
          n.validators.totalStake + tx.data.stake < TWO_TO_THE_64)
    && (tx.data.UnregisterValidator? && tx.sender in n.validators.infos ==>
          && n.validators.infos[tx.sender].stake <= n.validators.totalStake
          && ReadThrough(n, tx.sender).balance + n.validators.infos[tx.sender].stake < TWO_TO_THE_64)
  }

  /** ... at every transaction of the indexing loop. */
  predicate IndexFits(c: Crypto, n: Node, b: Block, txs: seq<Transaction>)
    decreases |txs|
  {
    txs == [] || (
      && RegistryFits(n, txs[0])
      && IndexFits(c, IndexTransaction(c, UpdateValidators(n, txs[0], b.header.epoch), txs[0], b.hash), b, txs[1..]))
  }

  /** The balances that readers see. */
  ghost function Visible(n: Node): nat
  {
    Coins(Ledger(n.accounts + n.pending, map[], map[], map[]))
  }

  lemma RefundMovesStake(n: Node, tx: Transaction, epoch: U64)
    requires tx.data.UnregisterValidator? && tx.sender in n.validators.infos
    ensures var refunded := Add64(ReadThrough(n, tx.sender).balance, n.validators.infos[tx.sender].stake);
            && ReadThrough(n, tx.sender).balance <= Visible(n)
            && Visible(UpdateValidators(n, tx, epoch)) + ReadThrough(n, tx.sender).balance == Visible(n) + refunded
  {
    hide Coins, Unregister, Add64;
    var account := ReadThrough(n, tx.sender);
    var refunded := account.(balance := Add64(account.balance, n.validators.infos[tx.sender].stake));
    PutVisible(n, UpdateValidators(n, tx, epoch), tx.sender, refunded);
  }

  lemma PutVisible(n: Node, m: Node, a: Bytes, account: Account)
    requires m.accounts == n.accounts && m.pending == n.pending[a := account]
    ensures ReadThrough(n, a).balance <= Visible(n)
    ensures Visible(m) + ReadThrough(n, a).balance == Visible(n) + account.balance
  {
    hide Coins;
    var l := Ledger(n.accounts + n.pending, map[], map[], map[]);
    PutCoins(l, a, account);
    assert n.accounts + n.pending[a := account] == (n.accounts + n.pending)[a := account];
    assert BalanceOf(l, a) == ReadThrough(n, a).balance;
  }

  /** One transaction of the loop: it fits, and balances and stakes together do not grow beyond what it brings. */
  lemma UpdateFits(n: Node, tx: Transaction, epoch: U64)
    requires Sound(n.validators) && Visible(n) + StakeSum(n.validators) + StakeOf(tx) < TWO_TO_THE_64
    ensures RegistryFits(n, tx) && Sound(UpdateValidators(n, tx, epoch).validators)
    ensures var m := UpdateValidators(n, tx, epoch);
            Visible(m) + StakeSum(m.validators) <= Visible(n) + StakeSum(n.validators) + StakeOf(tx)
  {
    hide Visible, StakeSum, ReadThrough, Register, Unregister, Sound, UpdateOne, UpdateValidators;
    UpdateIsOne(n, tx, epoch);
    TotalIsExact(n.validators);
    UpdateOneStake(n.validators, tx, epoch);
    if tx.data.UnregisterValidator? && tx.sender in n.validators.infos {
      RefundMovesStake(n, tx, epoch);
      NoStakeUnderflows(n.validators, tx.sender);
    } else {
      NoRefund(n, tx, epoch);
      SameVisible(n, UpdateValidators(n, tx, epoch));
    }
  }

  lemma NoRefund(n: Node, tx: Transaction, epoch: U64)
    requires !(tx.data.UnregisterValidator? && tx.sender in n.validators.infos)
    ensures UpdateValidators(n, tx, epoch).accounts == n.accounts && UpdateValidators(n, tx, epoch).pending == n.pending
  {
    hide Register;
  }

  lemma TotalIsExact(r: Registry)
    requires Sound(r) && StakeSum(r) < TWO_TO_THE_64
    ensures r.totalStake == StakeSum(r)
  {
    hide StakeSum;
  }

  lemma SameVisible(n: Node, m: Node)
    requires m.accounts == n.accounts && m.pending == n.pending
    ensures Visible(m) == Visible(n)
  {
  }

  /** The whole loop fits while balances, stakes and the stakes still to come fit 64 bits together. */
  lemma {:induction false} IndexNeverWraps(c: Crypto, n: Node, b: Block, txs: seq<Transaction>)
    requires Sound(n.validators) && Visible(n) + StakeSum(n.validators) + StakesOf(txs) < TWO_TO_THE_64
    ensures IndexFits(c, n, b, txs)
    decreases |txs|
  {
    hide Visible, StakeSum, Sound, UpdateValidators, RegistryFits, Hex, Append;
    if txs != [] {
      UpdateFits(n, txs[0], b.header.epoch);
      var m := UpdateValidators(n, txs[0], b.header.epoch);
      SameVisible(m, IndexTransaction(c, m, txs[0], b.hash));
      IndexNeverWraps(c, IndexTransaction(c, m, txs[0], b.hash), b, txs[1..]);
    }
  }

  // ---------------------------------------------------------------------------------------
  // Start-up and votes
  // ---------------------------------------------------------------------------------------

  predicate BootFits(accounts: map<Bytes, Account>, r: Registry, pubkeys: seq<Bytes>)
    decreases |pubkeys|
  {
    pubkeys == [] || (
      && (pubkeys[0] !in r.infos ==> r.totalStake + BOOT_STAKE < TWO_TO_THE_64)
      && var (a, s) := Endow(accounts, r, pubkeys[0]); BootFits(a, s, pubkeys[1..]))
  }

  lemma {:induction false} BootNeverWraps(accounts: map<Bytes, Account>, r: Registry, pubkeys: seq<Bytes>)
    requires Sound(r) && StakeSum(r) + BOOT_STAKE * |pubkeys| < TWO_TO_THE_64
    ensures BootFits(accounts, r, pubkeys)
    decreases |pubkeys|
  {
    hide StakeSum, Register;
    if pubkeys != [] {
      var (a, s) := Endow(accounts, r, pubkeys[0]);
      RegisterSound(r, pubkeys[0], BOOT_STAKE, 0);
      BootNeverWraps(a, s, pubkeys[1..]);
    }
  }

  /** No addition of the voting loop wraps. */
  predicate VotesFit(votes: seq<Vote>, r: Registry)
  {
    forall k :: 0 <= k < |votes| ==>
      VoteStake(votes[..k], r) + StakeOfVoter(r, votes[k].validator) < TWO_TO_THE_64
  }

  lemma VotesNeverWrap(votes: seq<Vote>, r: Registry)
    requires DistinctVoters(votes) && StakeSum(r) < TWO_TO_THE_64
    ensures VotesFit(votes, r)
  {
    forall k | 0 <= k < |votes|
      ensures VoteStake(votes[..k], r) + StakeOfVoter(r, votes[k].validator) < TWO_TO_THE_64
    {
      NextVoteFits(votes, r, k);
    }
    hide VoteStake, StakeSum;
  }

  lemma NextVoteFits(votes: seq<Vote>, r: Registry, k: nat)
    requires DistinctVoters(votes) && StakeSum(r) < TWO_TO_THE_64 && k < |votes|
    ensures VoteStake(votes[..k], r) + StakeOfVoter(r, votes[k].validator) < TWO_TO_THE_64
  {
    hide Total, VoteStake;
    var m, earlier := Stakes(r.infos), Voters(votes[..k]);
    VoteStakeIsTotal(votes[..k], r);
    assert votes[k].validator !in earlier;
    TotalOneMore(m, earlier, votes[k].validator);
    TotalSubset(m, earlier + {votes[k].validator});
  }

  // ---------------------------------------------------------------------------------------
  // Steps and runs
  // ---------------------------------------------------------------------------------------

  /** No addition to a balance or to the total stake and no subtraction from the total stake wraps in the step. */
  predicate StepFits(c: Crypto, n: Node, step: Step)
    requires n.head in n.tables.blocks
  {
    match step
    case Deliver(b) =>
      && (b.header.validator in n.validators.infos ==>
            n.validators.infos[b.header.validator].stake <= n.validators.totalStake)
      && (ReachesExecution(c, n, b) ==> ExecutionFits(c, LedgerOf(n), b.transactions))
      && (Accepted(c, n, b) ==>
            IndexFits(c, Accept(Noted(n, b), b, Executed(c, n, b), None), b, b.transactions))
    case Cast(v) => VotesFit(VotesFor(AddVote(c, n, v).node, v.blockHash), n.validators)
    case Boot(pubkeys) => BootFits(n.accounts, n.validators, pubkeys)
    case _ => true
  }

  /** The final balances of the closes a delivery executes add up without wrapping, as a checked addition would enforce. */
  ghost predicate ClosesChecked(c: Crypto, n: Node, step: Step)
  {
    step.Deliver? && ReachesExecution(c, n, step.block) ==> ClosesFit(step.block.transactions)
  }

  lemma DeliveryFits(c: Crypto, n: Node, b: Block)
    requires HeadStored(n) && Sound(n.validators) && Wealth(n) < TWO_TO_THE_64 && ClosesChecked(c, n, Deliver(b))
    ensures StepFits(c, n, Deliver(b))
  {
    if b.header.validator in n.validators.infos { NoStakeUnderflows(n.validators, b.header.validator); }
    if ReachesExecution(c, n, b) { ExecutionNeverWraps(c, LedgerOf(n), b.transactions); }
    if Accepted(c, n, b) { AcceptedFits(c, n, b); }
    hide Worth, StakeSum, Sound, ReachesExecution, ClosesFit, Accepted, ExecutionFits, IndexFits, Executed, Accept, Noted;
  }

  lemma AcceptedFits(c: Crypto, n: Node, b: Block)
    requires HeadStored(n) && Sound(n.validators) && Wealth(n) < TWO_TO_THE_64
    requires Accepted(c, n, b) && ClosesChecked(c, n, Deliver(b))
    ensures IndexFits(c, Accept(Noted(n, b), b, Executed(c, n, b), None), b, b.transactions)
  {
    hide Worth, StakeSum, Sound, Accepted, ExecuteAll, Validate, SeenHeader, Improves, Coins, Escrow;
    AddBlockEffect(c, n, b, None);
    NotedFields(n, b);
    ExecuteAllConserves(c, LedgerOf(n), b.transactions);
    var m := Accept(Noted(n, b), b, Executed(c, n, b), None);
    VisibleAfterAccept(Noted(n, b), b, Executed(c, n, b));
    WorthIsCoins(Executed(c, n, b));
    IndexNeverWraps(c, m, b, b.transactions);
  }

  lemma WorthIsCoins(l: Ledger)
    ensures Coins(l) <= Worth(l)
  {
  }

  lemma VisibleAfterAccept(n: Node, b: Block, l: Ledger)
    requires n.head in n.tables.blocks
    ensures Visible(Accept(n, b, l, None)) == Coins(l) && Accept(n, b, l, None).validators == n.validators
  {
    hide Improves;
    var seen := Ledger(l.accounts + map[], map[], map[], map[]);
    assert l.accounts + map[] == l.accounts;
    SameAccounts(seen, l);
  }

  lemma NextFits(c: Crypto, n: Node, step: Step)
    requires HeadStored(n) && Sound(n.validators) && VotesDistinct(n)
    requires Wealth(n) + Endowment(step) < TWO_TO_THE_64 && ClosesChecked(c, n, step)
    ensures StepFits(c, n, step)
  {
    hide Worth, StakeSum, Sound, ClosesChecked, AddVote, BootFits, VotesFit;
    if step.Deliver? {
      DeliveryFits(c, n, step.block);
    } else if step.Cast? {
      CastKeepsDistinct(c, n, step.vote);
      VotesNeverWrap(VotesFor(AddVote(c, n, step.vote).node, step.vote.blockHash), n.validators);
    } else if step.Boot? {
      BootNeverWraps(n.accounts, n.validators, step.pubkeys);
    }
  }

  /** Over any run that starts within 64 bits, start-up endowments included, in which the sum of
      `close_channel` is checked: nothing wraps, in any step. */
  lemma RunNeverWraps(c: Crypto, states: seq<Node>, steps: seq<Step>, i: nat)
    requires IsRun(c, states, steps) && i < |steps| && Sound(states[0].validators) && VotesDistinct(states[0])
    requires forall k :: 0 <= k < i && steps[k].Deliver? ==> SafeDelivery(c, states[k], steps[k].block)
    requires Wealth(states[0]) + Endowments(steps, i + 1) < TWO_TO_THE_64
    requires ClosesChecked(c, states[i], steps[i])
    ensures StepFits(c, states[i], steps[i])
  {
    hide Next, Sound, SafeDelivery, Wealth, VotesDistinct, ClosesChecked, StepFits;
    NoInflation(c, states, steps, i);
    RunKeepsDistinct(c, states, steps, i);
    NextFits(c, states[i], steps[i]);
  }
}
