/** No inflation: stored balances, open deposits and stakes never grow together, except by what
    start-up hands out. */
module Inflation {
  import opened Base
  import opened Totals
  import opened Ledger
  import opened Supply
  import opened Validators
  import opened Consensus
  import opened Node
  import opened Invariants
  import opened Safety

  /** Everything a node's books say exists. */
  ghost function Wealth(n: Node): nat
  {
    Worth(LedgerOf(n)) + StakeSum(n.validators)
  }

  ghost predicate ClosesFit(txs: seq<Transaction>)
  {
    forall i :: 0 <= i < |txs| ==> ClosesWithoutWrap(txs[i])
  }

  /** A successful list of transactions moves exactly the registered stakes out of the ledger. */
  lemma {:induction false} ExecuteAllConserves(c: Crypto, l: Ledger, txs: seq<Transaction>)
    requires Worth(l) < TWO_TO_THE_64 && ClosesFit(txs) && ExecuteAll(c, l, txs).Ok()
    ensures Worth(ExecuteAll(c, l, txs).ledger) + StakesOf(txs) == Worth(l)
    decreases |txs|
  {
    hide Apply, Worth, ClosesWithoutWrap;
    if txs != [] {
      ApplyConserves(c.id, l, txs[0]);
      ExecuteAllConserves(c, Apply(c.id, l, txs[0]).ledger, txs[1..]);
    }
  }

  // ---------------------------------------------------------------------------------------
  // Rolled-back blocks
  // ---------------------------------------------------------------------------------------

  /** The transaction passes the checks made before it is executed. */
  predicate Runnable(c: Crypto, tx: Transaction)
  {
    ValidLogic(tx) && c.txSigned(tx)
  }

  /** No executed transaction of the list opened a channel. */
  predicate OpensNoChannel(c: Crypto, l: Ledger, txs: seq<Transaction>)
    decreases |txs|
  {
    txs == [] || !Runnable(c, txs[0]) || (
      var o := Apply(c.id, l, txs[0]);
      o.Ok() ==> !txs[0].data.OpenChannel? && OpensNoChannel(c, o.ledger, txs[1..]))
  }

  /** What the successful openings of a list take out of balances. */
  function Opened(c: Crypto, l: Ledger, txs: seq<Transaction>): nat
    decreases |txs|
  {
    if txs == [] || !Runnable(c, txs[0]) then 0
    else
      var o := Apply(c.id, l, txs[0]);
      if o.Ok() then OpenedBy(txs[0]) + Opened(c, o.ledger, txs[1..]) else 0
  }

  function OpenedBy(tx: Transaction): nat
  {
    if tx.data.OpenChannel? then tx.data.amount else 0
  }

  /** The transaction is a close that gets as far as marking its channel. */
  predicate MarksClosed(l: Ledger, tx: Transaction)
  {
    && tx.data.CloseChannel? && tx.nonce == NonceOf(l, tx.sender)
    && tx.data.channelId in l.channels
    && var channel := l.channels[tx.data.channelId];
       !channel.isClosed && (tx.sender == channel.partnerA || tx.sender == channel.partnerB)
  }

  function ClosedBy(l: Ledger, tx: Transaction): nat
  {
    if MarksClosed(l, tx) then l.channels[tx.data.channelId].totalDeposit else 0
  }

  /** The deposits of the channels a list marks closed, also by a close that then fails. */
  function Closed(c: Crypto, l: Ledger, txs: seq<Transaction>): nat
    decreases |txs|
  {
    if txs == [] || !Runnable(c, txs[0]) then 0
    else
      var o := Apply(c.id, l, txs[0]);
      ClosedBy(l, txs[0]) + if o.Ok() then Closed(c, o.ledger, txs[1..]) else 0
  }

  lemma NothingOpened(c: Crypto, l: Ledger, txs: seq<Transaction>)
    requires OpensNoChannel(c, l, txs)
    ensures Opened(c, l, txs) == 0
    decreases |txs|
  {
    hide Apply;
  }

  /** One transaction moves deposits of open channels by what it opens and what it marks closed. */
  lemma ApplyEscrow(id: IdHash, l: Ledger, tx: Transaction)
    ensures var o := Apply(id, l, tx);
            Escrow(o.ledger) + ClosedBy(l, tx) == Escrow(l) + if o.Ok() then OpenedBy(tx) else 0
  {
    if tx.nonce != NonceOf(l, tx.sender) {
      assert Apply(id, l, tx).ledger == l;
    } else {
      ExecuteEscrow(id, l, tx);
      var l1 := Execute(id, l, tx).ledger;
      SameChannels(l1, IncrementNonce(l1, tx.sender));
    }
    hide Escrow, Execute;
  }

  lemma ExecuteEscrow(id: IdHash, l: Ledger, tx: Transaction)
    requires tx.nonce == NonceOf(l, tx.sender)
    ensures var o := Execute(id, l, tx);
            Escrow(o.ledger) + ClosedBy(l, tx) == Escrow(l) + if o.Ok() then OpenedBy(tx) else 0
  {
    hide Escrow, NonceOf;
    if tx.data.OpenChannel? {
      OpenEscrow(l, Channel(id(tx.sender, tx.nonce, CHANNEL_NAME), tx.sender, tx.data.partner, tx.data.amount,
                            tx.data.duration, false));
    } else if tx.data.CloseChannel? {
      CloseEscrow(l, tx);
    } else {
      ExecuteKeepsChannels(id, l, tx);
      SameChannels(l, Execute(id, l, tx).ledger);
      hide Execute;
    }
  }

  lemma OpenEscrow(l: Ledger, channel: Channel)
    requires !channel.isClosed
    ensures var o := Open(l, channel);
            Escrow(o.ledger) == Escrow(l) + if o.Ok() then channel.totalDeposit else 0
  {
    var o := Open(l, channel);
    if o.Ok() {
      AddChannel(l, channel);
      SameChannels(o.ledger, l.(channels := l.channels[channel.id := channel]));
    } else {
      SameChannels(l, o.ledger);
    }
    hide Escrow;
  }

  lemma CloseEscrow(l: Ledger, tx: Transaction)
    requires tx.data.CloseChannel? && tx.nonce == NonceOf(l, tx.sender)
    ensures Escrow(Close(l, tx.sender, tx.data.channelId, tx.data.finalA, tx.data.finalB).ledger) + ClosedBy(l, tx)
         == Escrow(l)
  {
    var o := Close(l, tx.sender, tx.data.channelId, tx.data.finalA, tx.data.finalB);
    if MarksClosed(l, tx) {
      MarkClosed(l, tx.data.channelId);
      SameChannels(Marked(l, tx.data.channelId), o.ledger);
    } else {
      SameChannels(l, o.ledger);
    }
    hide Escrow;
  }

  /** The exact account of the open deposits over a list, whether it succeeds or fails. */
  lemma {:induction false} ExecuteAllEscrow(c: Crypto, l: Ledger, txs: seq<Transaction>)
    ensures Escrow(ExecuteAll(c, l, txs).ledger) + Closed(c, l, txs) == Escrow(l) + Opened(c, l, txs)
    decreases |txs|
  {
    hide Apply, Escrow, ClosedBy, OpenedBy;
    if txs != [] && Runnable(c, txs[0]) {
      ApplyEscrow(c.id, l, txs[0]);
      if Apply(c.id, l, txs[0]).Ok() { ExecuteAllEscrow(c, Apply(c.id, l, txs[0]).ledger, txs[1..]); }
    }
  }

  type TrieRoot = Option<TrieModel.Digest<Account>>

  import TrieModel

  lemma AcceptedLedger(c: Crypto, n: Node, b: Block, root': TrieRoot)
    requires n.head in n.tables.blocks && Accepted(c, n, b)
    ensures LedgerOf(AddBlock(c, n, b, root').node) == Executed(c, n, b)
    ensures ExecuteAll(c, LedgerOf(n), b.transactions).Ok()
  {
    AddBlockEffect(c, n, b, root');
    IndexAllFrame(c, Accept(Noted(n, b), b, Executed(c, n, b), root'), b, b.transactions);
    hide AddBlock, IndexAll, Improves, SeenHeader, Accepted, ExecuteAll, Validate;
  }

  /** The block passes every check before its transactions are executed. */
  predicate ReachesExecution(c: Crypto, n: Node, b: Block)
  {
    && b.header.parentHash in n.tables.blocks
    && (SeenHeader(n, KeyOf(b)).Some? ==> SeenHeader(n, KeyOf(b)).value == b.hash)
    && Validate(c, b, n.tables.blocks[b.header.parentHash], n.validators).None?
  }

  /** A block cannot create wealth, unless a channel it closes has final balances whose sum wraps, or
      it is refused after its executed transactions opened channels with more than they closed. */
  ghost predicate SafeDelivery(c: Crypto, n: Node, b: Block)
    requires n.head in n.tables.blocks
  {
    if Accepted(c, n, b) then ClosesFit(b.transactions)
    else ReachesExecution(c, n, b) ==>
      Opened(c, LedgerOf(n), b.transactions) <= Closed(c, LedgerOf(n), b.transactions)
  }

  /** Stakes that leave the books: those of refused registrations and of unregistered validators. */
  function Forfeited(r: Registry, txs: seq<Transaction>, epoch: U64): nat
    decreases |txs|
  {
    if txs == [] then 0
    else ForfeitedBy(r, txs[0]) + Forfeited(UpdateOne(r, txs[0], epoch), txs[1..], epoch)
  }

  function ForfeitedBy(r: Registry, tx: Transaction): nat
  {
    if tx.data.RegisterValidator? then
      if tx.data.stake < MIN_STAKE || tx.sender in r.infos then tx.data.stake else 0
    else if tx.data.UnregisterValidator? then StakeOfVoter(r, tx.sender)
    else 0
  }

  lemma UpdateOneStake(r: Registry, tx: Transaction, epoch: U64)
    requires Sound(r)
    ensures Sound(UpdateOne(r, tx, epoch))
    ensures StakeSum(UpdateOne(r, tx, epoch)) + ForfeitedBy(r, tx) == StakeSum(r) + StakeOf(tx)
  {
    hide Sound, StakeSum, Register, Unregister;
    if tx.data.RegisterValidator? {
      RegisterSound(r, tx.sender, tx.data.stake, epoch);
    } else if tx.data.UnregisterValidator? {
      UnregisterSound(r, tx.sender);
    }
  }

  /** Registered stake changes by what the registrations bring and what is forfeited. */
  lemma {:induction false} UpdateAllStake(r: Registry, txs: seq<Transaction>, epoch: U64)
    requires Sound(r)
    ensures StakeSum(UpdateAll(r, txs, epoch)) + Forfeited(r, txs, epoch) == StakeSum(r) + StakesOf(txs)
    decreases |txs|
  {
    hide Sound, StakeSum, UpdateOne, ForfeitedBy;
    if txs != [] {
      UpdateOneStake(r, txs[0], epoch);
      UpdateAllStake(UpdateOne(r, txs[0], epoch), txs[1..], epoch);
    }
  }

  /** The exact account of an accepted block: wealth only loses what registrations and unregistrations forfeit. */
  lemma AcceptedWealth(c: Crypto, n: Node, b: Block, n': Node)
    requires HeadStored(n) && Next(c, n, Deliver(b), n') && Accepted(c, n, b) && ClosesFit(b.transactions)
    requires Sound(n.validators) && Wealth(n) < TWO_TO_THE_64
    ensures Wealth(n') + Forfeited(n.validators, b.transactions, b.header.epoch) == Wealth(n)
  {
    AcceptedLedger(c, n, b, n'.root);
    ExecuteAllConserves(c, LedgerOf(n), b.transactions);
    AcceptedValidators(c, n, b, n'.root);
    UpdateAllStake(n.validators, b.transactions, b.header.epoch);
    hide AddBlock, Accepted, ExecuteAll, UpdateAll, Worth, Sound, StakeSum, Commits, Forfeited;
  }

  /** A refused block that was not executed leaves the accounts and the channels, and can only slash. */
  lemma UnexecutedWealth(c: Crypto, n: Node, b: Block, n': Node)
    requires HeadStored(n) && Next(c, n, Deliver(b), n') && !ReachesExecution(c, n, b) && Sound(n.validators)
    ensures Wealth(n') <= Wealth(n)
  {
    UnexecutedFields(c, n, b, n'.root);
    SlashSound(n.validators, b.header.validator);
    SameAccounts(LedgerOf(n), LedgerOf(n'));
    SameChannels(LedgerOf(n), LedgerOf(n'));
    hide AddBlock, Accepted, Coins, Escrow, Sound, StakeSum, Commits, Slash, ReachesExecution;
  }

  lemma UnexecutedFields(c: Crypto, n: Node, b: Block, root': TrieRoot)
    requires n.head in n.tables.blocks && !ReachesExecution(c, n, b)
    ensures var n' := AddBlock(c, n, b, root').node;
            && n'.accounts == n.accounts && n'.channels == n.channels && n'.assets == n.assets
            && n'.validators in {n.validators, Slash(n.validators, b.header.validator)}
    ensures !Accepted(c, n, b)
  {
    NotedFields(n, b);
    hide ExecuteAll, IndexAll, Validate, Accept, Slash, RolledBack, Noted, SeenHeader;
    if b.header.parentHash !in n.tables.blocks {
    } else if SeenHeader(n, KeyOf(b)).Some? && SeenHeader(n, KeyOf(b)).value != b.hash {
    } else {
      assert AddBlock(c, n, b, root').node == Noted(n, b);
    }
  }

  lemma NotedFields(n: Node, b: Block)
    ensures var m := Noted(n, b);
            && m.accounts == n.accounts && m.channels == n.channels && m.assets == n.assets
            && m.validators == n.validators
  {
    hide SeenHeader;
  }

  /** The exact account of a block refused after its execution: the deductions are rolled back and the
      channels are not, so the openings create wealth and the closes destroy it. */
  lemma RolledBackWealth(c: Crypto, n: Node, b: Block, root': TrieRoot)
    requires n.head in n.tables.blocks && ReachesExecution(c, n, b) && !Accepted(c, n, b)
    ensures Wealth(AddBlock(c, n, b, root').node) + Closed(c, LedgerOf(n), b.transactions)
         == Wealth(n) + Opened(c, LedgerOf(n), b.transactions)
  {
    var n' := AddBlock(c, n, b, root').node;
    RolledBackFields(c, n, b, root');
    ExecuteAllEscrow(c, LedgerOf(n), b.transactions);
    SameAccounts(LedgerOf(n), LedgerOf(n'));
    SameChannels(Executed(c, n, b), LedgerOf(n'));
    hide AddBlock, ExecuteAll, Accepted, Coins, Escrow, StakeSum, ReachesExecution, Opened, Closed;
  }

  /** A refused block creates wealth exactly when its transactions were executed and opened channels with
      more than they closed. */
  lemma RefusedCreatesWealthIff(c: Crypto, n: Node, b: Block, n': Node)
    requires HeadStored(n) && Next(c, n, Deliver(b), n') && !Accepted(c, n, b) && Sound(n.validators)
    ensures Wealth(n') > Wealth(n) <==>
      ReachesExecution(c, n, b) && Opened(c, LedgerOf(n), b.transactions) > Closed(c, LedgerOf(n), b.transactions)
  {
    if ReachesExecution(c, n, b) { RolledBackWealth(c, n, b, n'.root); } else { UnexecutedWealth(c, n, b, n'); }
    hide Wealth, AddBlock, Accepted, Commits, ReachesExecution, Opened, Closed, Sound;
  }

  lemma RolledBackFields(c: Crypto, n: Node, b: Block, root': TrieRoot)
    requires n.head in n.tables.blocks && ReachesExecution(c, n, b) && !Accepted(c, n, b)
    ensures var n' := AddBlock(c, n, b, root').node;
            && n'.accounts == n.accounts && n'.channels == Executed(c, n, b).channels && n'.validators == n.validators
            && n'.assets == Executed(c, n, b).assets && n'.collections == Executed(c, n, b).collections
  {
    hide ExecuteAll, IndexAll, Validate, Accept, Slash, RolledBack;
    NotedKeepsLedger(n, b);
    RolledBackTo(Noted(n, b), Executed(c, n, b));
  }

  lemma RolledBackTo(n: Node, l: Ledger)
    ensures var m := RolledBack(n, l);
            && m.accounts == n.accounts && m.channels == l.channels && m.validators == n.validators
            && m.assets == l.assets && m.collections == l.collections
  {
  }

  /** The refund of an unregistered validator never reaches the store: whatever the overlay holds when a
      block arrives, the accounts stored afterwards are the same. */
  lemma RefundIsNeverStored(c: Crypto, n: Node, overlay: map<Bytes, Account>, b: Block, root': TrieRoot)
    requires n.head in n.tables.blocks
    ensures AddBlock(c, n.(pending := overlay), b, root').node.accounts == AddBlock(c, n, b, root').node.accounts
    ensures Accepted(c, n.(pending := overlay), b) == Accepted(c, n, b)
  {
    var m := n.(pending := overlay);
    AddBlockEffect(c, n, b, root');
    AddBlockEffect(c, m, b, root');
    BlockAtomicity(c, n, b, root');
    BlockAtomicity(c, m, b, root');
    assert LedgerOf(m) == LedgerOf(n);
    hide AddBlock, Accepted, ExecuteAll, Validate, IndexAll, Accept;
  }

  // ---------------------------------------------------------------------------------------
  // Start-up
  // ---------------------------------------------------------------------------------------

  lemma {:induction false} EndowAllCoins(accounts: map<Bytes, Account>, r: Registry, pubkeys: seq<Bytes>)
    ensures Total(Balances(EndowAll(accounts, r, pubkeys).0)) <= Total(Balances(accounts)) + BOOT_STAKE * |pubkeys|
    decreases |pubkeys|
  {
    hide Total, Register;
    if pubkeys != [] {
      var account := GetOr(Find(accounts, pubkeys[0]), FRESH_ACCOUNT);
      var l := Ledger(accounts, map[], map[], map[]);
      PutCoins(l, pubkeys[0], account.(balance := BOOT_STAKE));
      var (a, s) := Endow(accounts, r, pubkeys[0]);
      EndowAllCoins(a, s, pubkeys[1..]);
    }
  }

  lemma BootFields(c: Crypto, n: Node, pubkeys: seq<Bytes>, n': Node)
    requires HeadStored(n) && Next(c, n, Boot(pubkeys), n')
    ensures n'.accounts == EndowAll(n.accounts, n.validators, pubkeys).0
    ensures n'.validators == EndowAll(n.accounts, n.validators, pubkeys).1
    ensures n'.channels == n.channels
  {
    hide EndowAll, Commits, AddBlock;
  }

  lemma BootWealth(c: Crypto, n: Node, pubkeys: seq<Bytes>, n': Node)
    requires HeadStored(n) && Next(c, n, Boot(pubkeys), n') && Sound(n.validators)
    ensures Wealth(n') <= Wealth(n) + 2 * BOOT_STAKE * |pubkeys|
  {
    hide Next, EndowAll, Total, Sound, Escrow, StakeSum;
    BootFields(c, n, pubkeys, n');
    EndowAllCoins(n.accounts, n.validators, pubkeys);
    EndowAllSound(n.accounts, n.validators, pubkeys);
    SameChannels(LedgerOf(n), LedgerOf(n'));
  }

  lemma ReopenWealth(c: Crypto, n: Node, genesis: Block, n': Node)
    requires HeadStored(n) && Next(c, n, Reopen(genesis), n')
    ensures Wealth(n') <= Wealth(n)
  {
    EmptyIsSound();
    assert Deposits(map[]) == map[];
    SameAccounts(LedgerOf(n), LedgerOf(n'));
    hide Commits, Coins, AddBlock, StakeSum, Sound;
  }

  /** What start-up may add in a step. */
  function Endowment(step: Step): nat
  {
    if step.Boot? then 2 * BOOT_STAKE * |step.pubkeys| else 0
  }

  lemma NextWealth(c: Crypto, n: Node, step: Step, n': Node)
    requires HeadStored(n) && Next(c, n, step, n') && Sound(n.validators) && Wealth(n) < TWO_TO_THE_64
    requires step.Deliver? ==> SafeDelivery(c, n, step.block)
    ensures Wealth(n') <= Wealth(n) + Endowment(step)
  {
    hide Accepted, Sound, AddBlock, AddVote, Commits, EndowAll;
    hide ReachesExecution, Opened, Closed, ClosesFit, Worth, StakeSum, PruneTables, Restart, Forfeited;
    if step.Deliver? {
      if Accepted(c, n, step.block) {
        AcceptedWealth(c, n, step.block, n');
      } else {
        RefusedCreatesWealthIff(c, n, step.block, n');
      }
    } else if step.Boot? {
      BootWealth(c, n, step.pubkeys, n');
    } else if step.Reopen? {
      ReopenWealth(c, n, step.genesis, n');
    } else {
      if step.Cast? { CastFrame(c, n, step.vote); }
      assert LedgerOf(n') == LedgerOf(n) && n'.validators == n.validators;
    }
  }

  /** The endowments of the first `i` steps. */
  function Endowments(steps: seq<Step>, i: nat): nat
    requires i <= |steps|
  {
    if i == 0 then 0 else Endowments(steps, i - 1) + Endowment(steps[i - 1])
  }

  /** No inflation over any run: wealth never exceeds the initial wealth and the endowments, and stays
      within 64 bits, so that the running stake total is exact. */
  lemma {:induction false} NoInflation(c: Crypto, states: seq<Node>, steps: seq<Step>, i: nat)
    requires IsRun(c, states, steps) && i <= |steps| && Sound(states[0].validators)
    requires forall k :: 0 <= k < i && steps[k].Deliver? ==> SafeDelivery(c, states[k], steps[k].block)
    requires Wealth(states[0]) + Endowments(steps, i) < TWO_TO_THE_64
    ensures Wealth(states[i]) <= Wealth(states[0]) + Endowments(steps, i)
    ensures Sound(states[i].validators) && states[i].validators.totalStake == StakeSum(states[i].validators)
  {
    hide Next, Sound, SafeDelivery, StakeSum;
    if i > 0 {
      NoInflation(c, states, steps, i - 1);
      NextWealth(c, states[i - 1], steps[i - 1], states[i]);
      NextKeepsSound(c, states[i - 1], steps[i - 1], states[i]);
    }
    ExactTotal(states[i]);
  }

  lemma ExactTotal(n: Node)
    requires Sound(n.validators) && Wealth(n) < TWO_TO_THE_64
    ensures n.validators.totalStake == StakeSum(n.validators)
  {
    hide StakeSum, Worth;
  }
}
