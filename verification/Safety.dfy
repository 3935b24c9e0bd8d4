/** Runs of the node: no two accepted blocks of one validator for one slot, and slashed validators
    stay out. */
module Safety {
  import opened Base
  import opened Text
  import opened TrieModel
  import opened Ledger
  import opened Validators
  import opened Consensus
  import opened Node
  import opened Invariants

  // ---------------------------------------------------------------------------------------
  // Equivocation
  // ---------------------------------------------------------------------------------------

  lemma {:induction false} RunKeepsSeen(c: Crypto, states: seq<Node>, steps: seq<Step>, i: nat)
    requires IsRun(c, states, steps) && i <= |steps| && SeenAgrees(states[0])
    requires HeadStored(states[0])
    ensures SeenAgrees(states[i]) && HeadStored(states[i])
  {
    hide Next, SeenAgrees, HeadersKept, HeadStored;
    if i > 0 {
      RunKeepsSeen(c, states, steps, i - 1);
      NextKeepsSeen(c, states[i - 1], steps[i - 1], states[i]);
      NextKeepsHead(c, states[i - 1], steps[i - 1], states[i]);
    }
  }

  lemma {:induction false} HeaderPersists(c: Crypto, states: seq<Node>, steps: seq<Step>, i: nat, j: nat, key: (U64,
        Bytes))
    requires IsRun(c, states, steps) && i <= j <= |steps| && SeenAgrees(states[0]) && HeadStored(states[0])
    requires key in states[i].tables.headers
    ensures key in states[j].tables.headers && states[j].tables.headers[key] == states[i].tables.headers[key]
    decreases j
  {
    hide Next, SeenAgrees, HeadStored;
    if i < j {
      HeaderPersists(c, states, steps, i, j - 1, key);
      RunKeepsSeen(c, states, steps, j - 1);
      NextKeepsSeen(c, states[j - 1], steps[j - 1], states[j]);
    }
  }

  ghost predicate AcceptsAt(c: Crypto, states: seq<Node>, steps: seq<Step>, i: nat)
    requires IsRun(c, states, steps)
  {
    i < |steps| && steps[i].Deliver? && Accepted(c, states[i], steps[i].block)
  }

  lemma AcceptedIsRecorded(c: Crypto, n: Node, b: Block, n': Node)
    requires HeadStored(n) && SeenAgrees(n) && Next(c, n, Deliver(b), n') && Accepted(c, n, b)
    ensures KeyOf(b) in n'.tables.headers && n'.tables.headers[KeyOf(b)] == b.hash
  {
    DeliverHeaders(c, n, b, n'.root);
    NextKeepsSeen(c, n, Deliver(b), n');
    hide AddBlock, Accepted, Commits, HeadersAfter, HeadersKept;
  }

  lemma AcceptedMatchesRecord(c: Crypto, n: Node, b: Block)
    requires HeadStored(n) && SeenAgrees(n) && Accepted(c, n, b) && KeyOf(b) in n.tables.headers
    ensures n.tables.headers[KeyOf(b)] == b.hash
  {
    AddBlockEffect(c, n, b, None);
    hide AddBlock, Accepted, Validate, ExecuteAll;
  }

  lemma RecordedAfter(c: Crypto, states: seq<Node>, steps: seq<Step>, i: nat)
    requires IsRun(c, states, steps) && SeenAgrees(states[0]) && HeadStored(states[0]) && AcceptsAt(c, states, steps, i)
    ensures KeyOf(steps[i].block) in states[i + 1].tables.headers
    ensures states[i + 1].tables.headers[KeyOf(steps[i].block)] == steps[i].block.hash
  {
    RunKeepsSeen(c, states, steps, i);
    AcceptedIsRecorded(c, states[i], steps[i].block, states[i + 1]);
    hide Next, SeenAgrees, HeadStored, KeyOf, Accepted;
  }

  lemma MatchesBefore(c: Crypto, states: seq<Node>, steps: seq<Step>, j: nat)
    requires IsRun(c, states, steps) && SeenAgrees(states[0]) && HeadStored(states[0]) && AcceptsAt(c, states, steps, j)
    requires KeyOf(steps[j].block) in states[j].tables.headers
    ensures states[j].tables.headers[KeyOf(steps[j].block)] == steps[j].block.hash
  {
    RunKeepsSeen(c, states, steps, j);
    AcceptedMatchesRecord(c, states[j], steps[j].block);
    hide Next, SeenAgrees, HeadStored, KeyOf, Accepted;
  }

  /** Equivocation safety: over any run, restarts included, two accepted blocks of one validator for
      one slot are the same block. */
  lemma NoEquivocation(c: Crypto, states: seq<Node>, steps: seq<Step>, i: nat, j: nat)
    requires IsRun(c, states, steps) && SeenAgrees(states[0]) && HeadStored(states[0]) && i <= j
    requires AcceptsAt(c, states, steps, i) && AcceptsAt(c, states, steps, j)
    requires KeyOf(steps[i].block) == KeyOf(steps[j].block)
    ensures steps[i].block.hash == steps[j].block.hash
  {
    hide IsRun, Next, SeenAgrees, HeadStored, KeyOf, Accepted;
    var key := KeyOf(steps[i].block);
    if i < j {
      RecordedAfter(c, states, steps, i);
      HeaderPersists(c, states, steps, i + 1, j, key);
      MatchesBefore(c, states, steps, j);
    }
  }

  // ---------------------------------------------------------------------------------------
  // The validator set along a run
  // ---------------------------------------------------------------------------------------

  function UpdateOne(r: Registry, tx: Transaction, epoch: U64): Registry
  {
    if tx.data.RegisterValidator? then Register(r, tx.sender, tx.data.stake, epoch)
    else if tx.data.UnregisterValidator? then Unregister(r, tx.sender)
    else r
  }

  /** The registrations of a block, one after the other. */
  function UpdateAll(r: Registry, txs: seq<Transaction>, epoch: U64): Registry
    decreases |txs|
  {
    if txs == [] then r else UpdateAll(UpdateOne(r, txs[0], epoch), txs[1..], epoch)
  }

  lemma UpdateIsOne(n: Node, tx: Transaction, epoch: U64)
    ensures UpdateValidators(n, tx, epoch).validators == UpdateOne(n.validators, tx, epoch)
  {
    hide Register, Add64, Sub64, ReadThrough;
    if tx.data.RegisterValidator? {
    } else if tx.data.UnregisterValidator? {
    } else {
      assert UpdateValidators(n, tx, epoch) == n;
    }
  }

  lemma {:induction false} IndexAllValidators(c: Crypto, n: Node, b: Block, txs: seq<Transaction>)
    ensures IndexAll(c, n, b, txs).validators == UpdateAll(n.validators, txs, b.header.epoch)
    decreases |txs|
  {
    hide UpdateValidators, UpdateOne, Hex, Append;
    if txs != [] {
      UpdateIsOne(n, txs[0], b.header.epoch);
      IndexAllValidators(c, IndexTransaction(c, UpdateValidators(n, txs[0], b.header.epoch), txs[0], b.hash), b, txs[1..]);
    }
  }

  lemma RefusedValidators(c: Crypto, n: Node, b: Block, root': Root<Account>)
    requires n.head in n.tables.blocks && !Accepted(c, n, b)
    ensures AddBlock(c, n, b, root').node.validators in {n.validators, Slash(n.validators, b.header.validator)}
  {
    AddBlockEffect(c, n, b, root');
    hide AddBlock, Passed, Slash, Executed, SeenHeader, Accepted;
    var n' := AddBlock(c, n, b, root').node;
    if n' == n {
    } else if n' == n.(validators := Slash(n.validators, b.header.validator)) {
    } else if n' == Noted(n, b) {
    } else {
      assert n' == RolledBack(Noted(n, b), Executed(c, n, b));
    }
  }

  lemma AcceptedValidators(c: Crypto, n: Node, b: Block, root': Root<Account>)
    requires n.head in n.tables.blocks && Accepted(c, n, b)
    ensures AddBlock(c, n, b, root').node.validators == UpdateAll(n.validators, b.transactions, b.header.epoch)
  {
    hide AddBlock, Passed, IndexAll, UpdateAll, Improves, SeenHeader, Accepted, Executed;
    AddBlockEffect(c, n, b, root');
    IndexAllValidators(c, Accept(Noted(n, b), b, Executed(c, n, b), root'), b, b.transactions);
  }

  /** What happens to the validator set in one step. */
  ghost predicate ValidatorStep(c: Crypto, n: Node, step: Step, n': Node)
    requires n.head in n.tables.blocks
  {
    match step
    case Deliver(b) =>
      if Accepted(c, n, b) then n'.validators == UpdateAll(n.validators, b.transactions, b.header.epoch)
      else n'.validators in {n.validators, Slash(n.validators, b.header.validator)}
    case Reopen(_) => n'.validators == Registry(map[], 0)
    case Boot(pubkeys) => n'.validators == EndowAll(n.accounts, n.validators, pubkeys).1
    case _ => n'.validators == n.validators
  }

  lemma NextValidators(c: Crypto, n: Node, step: Step, n': Node)
    requires HeadStored(n) && Next(c, n, step, n')
    ensures ValidatorStep(c, n, step, n')
  {
    if step.Deliver? {
      if Accepted(c, n, step.block) {
        AcceptedValidators(c, n, step.block, n'.root);
      } else {
        RefusedValidators(c, n, step.block, n'.root);
      }
    } else if step.Cast? {
    } else if step.PruneBefore? {
    } else if step.Reopen? {
    } else {
      assert step.Boot?;
    }
    hide AddBlock, Commits, Accepted, UpdateAll, Slash, EndowAll, Quorum, HasVoted;
  }

  lemma {:induction false} UpdateAllSound(r: Registry, txs: seq<Transaction>, epoch: U64)
    requires Sound(r)
    ensures Sound(UpdateAll(r, txs, epoch))
    ensures StakeSum(UpdateAll(r, txs, epoch)) <= StakeSum(r) + StakesOf(txs)
    decreases |txs|
  {
    hide Sound, StakeSum, Register, Unregister;
    if txs != [] {
      var tx := txs[0];
      if tx.data.RegisterValidator? {
        RegisterSound(r, tx.sender, tx.data.stake, epoch);
        UpdateAllSound(Register(r, tx.sender, tx.data.stake, epoch), txs[1..], epoch);
      } else if tx.data.UnregisterValidator? {
        UnregisterSound(r, tx.sender);
        UpdateAllSound(Unregister(r, tx.sender), txs[1..], epoch);
      } else {
        UpdateAllSound(r, txs[1..], epoch);
      }
    }
  }

  /** The stakes the registrations of a list take out of balances. */
  function StakesOf(txs: seq<Transaction>): nat
    decreases |txs|
  {
    if txs == [] then 0
    else (if txs[0].data.RegisterValidator? then txs[0].data.stake else 0) + StakesOf(txs[1..])
  }

  lemma {:induction false} EndowAllSound(accounts: map<Bytes, Account>, r: Registry, pubkeys: seq<Bytes>)
    requires Sound(r)
    ensures Sound(EndowAll(accounts, r, pubkeys).1)
    ensures StakeSum(EndowAll(accounts, r, pubkeys).1) <= StakeSum(r) + BOOT_STAKE * |pubkeys|
    decreases |pubkeys|
  {
    hide Sound, StakeSum, Register;
    if pubkeys != [] {
      var (a, s) := Endow(accounts, r, pubkeys[0]);
      RegisterSound(r, pubkeys[0], BOOT_STAKE, 0);
      EndowAllSound(a, s, pubkeys[1..]);
    }
  }

  /** The running total stays the sum of the stakes. */
  lemma NextKeepsSound(c: Crypto, n: Node, step: Step, n': Node)
    requires HeadStored(n) && Sound(n.validators) && Next(c, n, step, n')
    ensures Sound(n'.validators)
  {
    NextValidators(c, n, step, n');
    hide Next, Accepted, Sound, UpdateAll, EndowAll, Slash;
    match step {
      case Deliver(b) =>
        UpdateAllSound(n.validators, b.transactions, b.header.epoch);
        SlashSound(n.validators, b.header.validator);
      case Reopen(_) => EmptyIsSound();
      case Boot(pubkeys) => EndowAllSound(n.accounts, n.validators, pubkeys);
      case _ =>
    }
  }

  // ---------------------------------------------------------------------------------------
  // Slashing
  // ---------------------------------------------------------------------------------------

  predicate IsSlashed(r: Registry, pubkey: Bytes)
  {
    pubkey in r.infos && r.infos[pubkey].slashed
  }

  predicate Unregisters(txs: seq<Transaction>, pubkey: Bytes)
  {
    exists i :: 0 <= i < |txs| && txs[i].sender == pubkey && txs[i].data.UnregisterValidator?
  }

  /** A second block for a slot slashes its validator. */
  lemma EquivocationSlashes(c: Crypto, n: Node, b: Block, root': Root<Account>)
    requires HeadStored(n) && b.header.parentHash in n.tables.blocks && b.header.validator in n.validators.infos
    requires SeenHeader(n, KeyOf(b)).Some? && SeenHeader(n, KeyOf(b)).value != b.hash
    ensures !AddBlock(c, n, b, root').accepted
    ensures IsSlashed(AddBlock(c, n, b, root').node.validators, b.header.validator)
  {
    hide ExecuteAll, IndexAll, Validate, Accept, Noted;
  }

  /** The registrations of an accepted block slash nobody. */
  lemma {:induction false} UpdateAllSlashesNobody(r: Registry, txs: seq<Transaction>, epoch: U64, pubkey: Bytes)
    requires !IsSlashed(r, pubkey)
    ensures !IsSlashed(UpdateAll(r, txs, epoch), pubkey)
    decreases |txs|
  {
    if txs != [] { UpdateAllSlashesNobody(UpdateOne(r, txs[0], epoch), txs[1..], epoch, pubkey); }
  }

  /** A delivery slashes a registered validator exactly when the parent is known and another header of the
      validator is recorded for the slot: neither the VRF proof nor leadership nor a signature is looked at. */
  lemma DeliverySlashesIff(c: Crypto, n: Node, b: Block, root': Root<Account>, pubkey: Bytes)
    requires HeadStored(n) && pubkey in n.validators.infos && !IsSlashed(n.validators, pubkey)
    ensures IsSlashed(AddBlock(c, n, b, root').node.validators, pubkey) <==>
      && b.header.parentHash in n.tables.blocks && b.header.validator == pubkey
      && SeenHeader(n, KeyOf(b)) !in {None, Some(b.hash)}
  {
    if b.header.parentHash in n.tables.blocks && SeenHeader(n, KeyOf(b)) !in {None, Some(b.hash)} {
      SlashedOnly(c, n, b, root');
    } else if Accepted(c, n, b) {
      AcceptedValidators(c, n, b, root');
      UpdateAllSlashesNobody(n.validators, b.transactions, b.header.epoch, pubkey);
    } else {
      QuietRefusal(c, n, b, root');
    }
    hide AddBlock, Accepted, UpdateAll, SeenHeader;
  }

  lemma SlashedOnly(c: Crypto, n: Node, b: Block, root': Root<Account>)
    requires HeadStored(n) && b.header.parentHash in n.tables.blocks
    requires SeenHeader(n, KeyOf(b)) !in {None, Some(b.hash)}
    ensures AddBlock(c, n, b, root').node.validators == Slash(n.validators, b.header.validator)
  {
    hide ExecuteAll, IndexAll, Validate, Accept, Noted, SeenHeader, Slash;
  }

  lemma QuietRefusal(c: Crypto, n: Node, b: Block, root': Root<Account>)
    requires HeadStored(n) && !Accepted(c, n, b)
    requires b.header.parentHash !in n.tables.blocks || SeenHeader(n, KeyOf(b)) in {None, Some(b.hash)}
    ensures AddBlock(c, n, b, root').node.validators == n.validators
  {
    NotedKeepsRegistry(n, b);
    hide ExecuteAll, IndexAll, Validate, Accept, Noted, SeenHeader, Slash;
  }

  lemma NotedKeepsRegistry(n: Node, b: Block)
    ensures Noted(n, b).validators == n.validators
  {
    hide SeenHeader;
  }

  lemma {:induction false} UpdateAllKeepsSlashed(r: Registry, txs: seq<Transaction>, epoch: U64, pubkey: Bytes)
    requires IsSlashed(r, pubkey) && !Unregisters(txs, pubkey)
    ensures IsSlashed(UpdateAll(r, txs, epoch), pubkey)
    decreases |txs|
  {
    if txs != [] {
      assert !Unregisters(txs[1..], pubkey) by {
        assert forall i :: 0 <= i < |txs| - 1 ==> txs[1..][i] == txs[i + 1];
      }
      var tx := txs[0];
      if tx.data.RegisterValidator? {
        UpdateAllKeepsSlashed(Register(r, tx.sender, tx.data.stake, epoch), txs[1..], epoch, pubkey);
      } else if tx.data.UnregisterValidator? {
        assert tx.sender != pubkey;
        UpdateAllKeepsSlashed(Unregister(r, tx.sender), txs[1..], epoch, pubkey);
      } else {
        UpdateAllKeepsSlashed(r, txs[1..], epoch, pubkey);
      }
    }
  }

  lemma {:induction false} EndowAllKeepsSlashed(accounts: map<Bytes, Account>, r: Registry, pubkeys: seq<Bytes>,
        pubkey: Bytes)
    requires IsSlashed(r, pubkey)
    ensures IsSlashed(EndowAll(accounts, r, pubkeys).1, pubkey)
    decreases |pubkeys|
  {
    if pubkeys != [] {
      var (a, s) := Endow(accounts, r, pubkeys[0]);
      EndowAllKeepsSlashed(a, s, pubkeys[1..], pubkey);
    }
  }

  /** The steps that can lift a slashing: a restart, and an accepted block in which the validator unregisters. */
  ghost predicate Absolves(c: Crypto, n: Node, step: Step, pubkey: Bytes)
    requires n.head in n.tables.blocks
  {
    step.Reopen? || (step.Deliver? && Accepted(c, n, step.block) && Unregisters(step.block.transactions, pubkey))
  }

  lemma NextKeepsSlashed(c: Crypto, n: Node, step: Step, n': Node, pubkey: Bytes)
    requires HeadStored(n) && Next(c, n, step, n') && IsSlashed(n.validators, pubkey)
    requires !Absolves(c, n, step, pubkey)
    ensures IsSlashed(n'.validators, pubkey)
  {
    NextValidators(c, n, step, n');
    hide Next, Accepted, UpdateAll, EndowAll;
    match step {
      case Deliver(b) =>
        if Accepted(c, n, b) { UpdateAllKeepsSlashed(n.validators, b.transactions, b.header.epoch, pubkey); }
      case Boot(pubkeys) => EndowAllKeepsSlashed(n.accounts, n.validators, pubkeys, pubkey);
      case _ =>
    }
  }

  lemma SlashedIsRefused(c: Crypto, n: Node, b: Block)
    requires HeadStored(n) && Sound(n.validators) && IsSlashed(n.validators, b.header.validator)
    ensures !Accepted(c, n, b)
  {
    AddBlockEffect(c, n, b, None);
    SlashedNeverLeads(n.validators, b.header.validator, b.header.vrfOutput);
    hide AddBlock, Accepted, ExecuteAll, SeenHeader, Sound, IsSlotLeader;
  }

  lemma {:induction false} RunKeepsSlashed(c: Crypto, states: seq<Node>, steps: seq<Step>, i: nat, j: nat,
        pubkey: Bytes)
    requires IsRun(c, states, steps) && i <= j < |steps|
    requires Sound(states[i].validators) && IsSlashed(states[i].validators, pubkey)
    requires forall k :: i <= k < j ==> !Absolves(c, states[k], steps[k], pubkey)
    ensures Sound(states[j].validators) && IsSlashed(states[j].validators, pubkey)
    decreases j
  {
    hide Next, Sound, IsSlashed, Absolves;
    if i < j {
      RunKeepsSlashed(c, states, steps, i, j - 1, pubkey);
      NextKeepsSound(c, states[j - 1], steps[j - 1], states[j]);
      NextKeepsSlashed(c, states[j - 1], steps[j - 1], states[j], pubkey);
    }
  }

  /** Once slashed, a validator has every later block refused, until a restart or until an accepted
      block in which it unregisters. */
  lemma SlashedStaysOut(c: Crypto, states: seq<Node>, steps: seq<Step>, i: nat, j: nat, pubkey: Bytes)
    requires IsRun(c, states, steps) && i <= j < |steps|
    requires Sound(states[i].validators) && IsSlashed(states[i].validators, pubkey)
    requires forall k :: i <= k < j ==> !Absolves(c, states[k], steps[k], pubkey)
    requires steps[j].Deliver? && steps[j].block.header.validator == pubkey
    ensures !AcceptsAt(c, states, steps, j)
  {
    RunKeepsSlashed(c, states, steps, i, j, pubkey);
    SlashedIsRefused(c, states[j], steps[j].block);
    hide Next, Sound, IsSlashed, Absolves, Accepted;
  }
}
