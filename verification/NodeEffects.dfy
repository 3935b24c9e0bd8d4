/** What registrations, refunds, pruning, restarts and start-up do, said on the fields of the node. */
module NodeEffects {
  import opened Base
  import opened Ledger
  import opened Validators
  import opened Consensus
  import opened Node

  /** A registration of at least 1000 by somebody new makes an unslashed validator with that stake; anything
      else changes nothing. */
  lemma RegisterEffect(r: Registry, pubkey: Bytes, stake: U64, epoch: U64, other: Bytes)
    ensures var s, made := Register(r, pubkey, stake, epoch), stake >= 1000 && pubkey !in r.infos;
            && Find(s.infos, other) ==
                 (if made && other == pubkey then Some(ValidatorInfo(pubkey, stake, epoch, false)) else Find(r.infos, other))
            && s.totalStake == (if made then (r.totalStake + stake) % TWO_TO_THE_64 else r.totalStake)
  {
  }

  /** Leaving takes the validator and its stake out; slashing keeps it, marked and without stake. */
  lemma LeaveOrSlashEffect(r: Registry, pubkey: Bytes, other: Bytes)
    requires Sound(r) && StakeSum(r) < TWO_TO_THE_64
    ensures var s := Unregister(r, pubkey);
            && Find(s.infos, other) == (if other == pubkey then None else Find(r.infos, other))
            && s.totalStake + StakeOfVoter(r, pubkey) == r.totalStake
    ensures var s := Slash(r, pubkey);
            && (other != pubkey ==> Find(s.infos, other) == Find(r.infos, other))
            && s.infos.Keys == r.infos.Keys
            && (pubkey in r.infos ==> s.infos[pubkey].slashed && s.infos[pubkey].stake == 0)
            && s.totalStake + StakeOfVoter(r, pubkey) == r.totalStake
  {
    if pubkey in r.infos { NoStakeUnderflows(r, pubkey); }
    hide StakeSum;
  }

  /** After the commit, an unregistration gives the validator its own stake back, in the overlay and to nobody else;
      the stored accounts do not change. */
  lemma RefundEffect(n: Node, tx: Transaction, epoch: U64, a: Bytes)
    ensures var m := UpdateValidators(n, tx, epoch);
            var leaves := tx.data.UnregisterValidator? && tx.sender in n.validators.infos;
            && m.accounts == n.accounts
            && ReadThrough(m, a).balance ==
                 (if leaves && a == tx.sender
                  then (ReadThrough(n, a).balance + n.validators.infos[a].stake) % TWO_TO_THE_64
                  else ReadThrough(n, a).balance)
            && ReadThrough(m, a) == ReadThrough(n, a).(balance := ReadThrough(m, a).balance)
            && (leaves ==> tx.sender !in m.validators.infos)
  {
    hide Register, Sub64;
    if tx.data.RegisterValidator? {
    } else if tx.data.UnregisterValidator? && tx.sender in n.validators.infos {
    } else {
      assert UpdateValidators(n, tx, epoch) == n;
    }
  }

  /** A height in [1, target) is indexed to the hash. */
  ghost predicate IndexedBelow(t: Tables, target: U64, hash: Bytes)
  {
    exists h :: h in t.heights && 1 <= h < target && t.heights[h] == hash
  }

  /** Pruning removes exactly the height entries in [1, target) and exactly the blocks they point to, except the head;
      nothing else on disk or in memory changes. */
  lemma PruneEffect(n: Node, target: U64, h: U64, hash: Bytes)
    ensures var m := Prune(n, target);
            && Find(m.tables.heights, h) == (if 1 <= h < target then None else Find(n.tables.heights, h))
            && Find(m.tables.blocks, hash) ==
                 (if hash != n.head && IndexedBelow(n.tables, target, hash) then None else Find(n.tables.blocks, hash))
            && m == n.(tables := n.tables.(heights := m.tables.heights, blocks := m.tables.blocks))
  {
    assert hash in Doomed(n.tables, target, n.head) <==> hash != n.head && IndexedBelow(n.tables, target, hash);
  }

  /** A restart keeps the disk and the accounts, finalizes the head, and forgets everything that was in memory only. */
  lemma ReopenEffect(c: Crypto, n: Node, genesis: Block, n': Node)
    requires HeadStored(n) && Next(c, n, Reopen(genesis), n')
    ensures n'.tables == n.tables && n'.accounts == n.accounts && n'.head == n.head == n'.finalized
    ensures n'.pending == map[] && n'.seen == map[] && n'.votes == map[]
    ensures n'.assets == map[] && n'.collections == map[] && n'.channels == map[]
    ensures n'.validators.infos == map[] && n'.validators.totalStake == 0
  {
    hide Commits, AddBlock, EndowAll;
  }

  function BalanceIn(accounts: map<Bytes, Account>, a: Bytes): U64
  {
    GetOr(Find(accounts, a), FRESH_ACCOUNT).balance
  }

  /** Start-up gives 1000000 to exactly the configured keys without a balance, and registers those that are new with
      the same stake. */
  lemma {:induction false} EndowEffect(accounts: map<Bytes, Account>, r: Registry, pubkeys: seq<Bytes>, a: Bytes)
    ensures var (accounts', r') := EndowAll(accounts, r, pubkeys);
            var chosen := a in pubkeys && BalanceIn(accounts, a) == 0;
            && BalanceIn(accounts', a) == (if chosen then 1_000_000 else BalanceIn(accounts, a))
            && Find(r'.infos, a) ==
                 (if chosen && a !in r.infos then Some(ValidatorInfo(a, 1_000_000, 0, false)) else Find(r.infos, a))
    decreases |pubkeys|
  {
    hide Add64;
    if pubkeys != [] {
      var (accounts1, r1) := Endow(accounts, r, pubkeys[0]);
      EndowEffect(accounts1, r1, pubkeys[1..], a);
      assert a in pubkeys <==> a == pubkeys[0] || a in pubkeys[1..];
    }
  }
}
