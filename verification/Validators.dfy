/** The validator set, the leader threshold, and quorums of votes. */
module Validators {
  import opened Base
  import opened Totals

  const MIN_STAKE: U64 := 1000

  datatype ValidatorInfo = ValidatorInfo(pubkey: Bytes, stake: U64, registeredEpoch: U64, slashed: bool)

  datatype Vote = Vote(blockHash: Bytes, slot: U64, validator: Bytes, signature: Bytes)

  /** The value of a validator set. */
  datatype Registry = Registry(infos: map<Bytes, ValidatorInfo>, totalStake: U64)

  function Register(r: Registry, pubkey: Bytes, stake: U64, epoch: U64): Registry
  {
    if stake < MIN_STAKE || pubkey in r.infos then r
    else Registry(r.infos[pubkey := ValidatorInfo(pubkey, stake, epoch, false)], Add64(r.totalStake, stake))
  }

  function Unregister(r: Registry, pubkey: Bytes): Registry
  {
    if pubkey !in r.infos then r
    else Registry(r.infos - {pubkey}, Sub64(r.totalStake, r.infos[pubkey].stake))
  }

  function Slash(r: Registry, pubkey: Bytes): Registry
  {
    if pubkey !in r.infos || r.infos[pubkey].slashed then r
    else Registry(r.infos[pubkey := r.infos[pubkey].(slashed := true, stake := 0)], Sub64(r.totalStake, r.infos[pubkey].stake))
  }

  function Stakes(infos: map<Bytes, ValidatorInfo>): map<Bytes, nat>
  {
    map k | k in infos :: infos[k].stake
  }

  ghost function StakeSum(r: Registry): nat
  {
    Total(Stakes(r.infos))
  }

  /** The running total is the sum of the stakes, in `u64` arithmetic, and a slashed validator has none. */
  ghost predicate Sound(r: Registry)
  {
    && r.totalStake == StakeSum(r) % TWO_TO_THE_64
    && forall k :: k in r.infos ==> r.infos[k].pubkey == k && (r.infos[k].slashed ==> r.infos[k].stake == 0)
  }

  lemma EmptyIsSound()
    ensures Sound(Registry(map[], 0)) && StakeSum(Registry(map[], 0)) == 0
  {
    assert Stakes(map[]) == map[];
  }

  lemma StakesPut(infos: map<Bytes, ValidatorInfo>, k: Bytes, info: ValidatorInfo)
    ensures Total(Stakes(infos[k := info])) + At(Stakes(infos), k) == Total(Stakes(infos)) + info.stake
    ensures At(Stakes(infos), k) <= Total(Stakes(infos))
  {
    hide Total;
    assert Stakes(infos[k := info]) == Stakes(infos)[k := info.stake];
    TotalUpdate(Stakes(infos), k, info.stake);
    TotalTwo(Stakes(infos), k, k);
  }

  /** A registration adds the stake or changes nothing. */
  lemma RegisterSound(r: Registry, pubkey: Bytes, stake: U64, epoch: U64)
    requires Sound(r)
    ensures Sound(Register(r, pubkey, stake, epoch))
    ensures StakeSum(Register(r, pubkey, stake, epoch)) == StakeSum(r) + if stake < MIN_STAKE || pubkey in r.infos then 0 else stake
  {
    hide Total;
    StakesPut(r.infos, pubkey, ValidatorInfo(pubkey, stake, epoch, false));
  }

  /** Unregistering takes the stake of the validator out of the total, whatever the total has wrapped to. */
  lemma UnregisterSound(r: Registry, pubkey: Bytes)
    requires Sound(r)
    ensures Sound(Unregister(r, pubkey))
    ensures StakeSum(Unregister(r, pubkey)) + At(Stakes(r.infos), pubkey) == StakeSum(r)
  {
    hide Total;
    if pubkey in r.infos {
      StakesRemove(r.infos, pubkey);
      SubtractStake(r.totalStake, StakeSum(r), r.infos[pubkey].stake);
    }
  }

  lemma StakesRemove(infos: map<Bytes, ValidatorInfo>, k: Bytes)
    requires k in infos
    ensures Total(Stakes(infos - {k})) + infos[k].stake == Total(Stakes(infos))
  {
    hide Total;
    assert Stakes(infos - {k}) == Stakes(infos) - {k};
    TotalRemove(Stakes(infos), k);
  }

  lemma SubtractStake(total: U64, sum: nat, stake: U64)
    requires total == sum % TWO_TO_THE_64 && stake <= sum
    ensures Sub64(total, stake) == (sum - stake) % TWO_TO_THE_64
  {
  }

  lemma SlashSound(r: Registry, pubkey: Bytes)
    requires Sound(r)
    ensures Sound(Slash(r, pubkey))
    ensures StakeSum(Slash(r, pubkey)) + At(Stakes(r.infos), pubkey) == StakeSum(r) || Slash(r, pubkey) == r
    ensures StakeSum(Slash(r, pubkey)) <= StakeSum(r)
    ensures pubkey in r.infos ==> pubkey in Slash(r, pubkey).infos && Slash(r, pubkey).infos[pubkey].slashed
  {
    hide Total;
    if pubkey in r.infos {
      StakesPut(r.infos, pubkey, r.infos[pubkey].(slashed := true, stake := 0));
    }
  }

  /** While the stakes fit 64 bits the running total is exact, so that no subtraction from it underflows. */
  lemma NoStakeUnderflows(r: Registry, pubkey: Bytes)
    requires Sound(r) && StakeSum(r) < TWO_TO_THE_64 && pubkey in r.infos
    ensures r.infos[pubkey].stake <= r.totalStake == StakeSum(r)
    ensures Unregister(r, pubkey).totalStake == r.totalStake - r.infos[pubkey].stake
  {
    hide Total;
    StakesRemove(r.infos, pubkey);
  }

  // ---------------------------------------------------------------------------------------
  // Slot leadership
  // ---------------------------------------------------------------------------------------

  /** The first eight bytes, zero-padded, as a little-endian number. */
  function LittleEndian(bytes: Bytes, count: nat): nat
    decreases count
  {
    if count == 0 || bytes == [] then 0 else bytes[0] + 256 * LittleEndian(bytes[1..], count - 1)
  }

  /** The comparison of the two fractions `value / (2^64 - 1) < stake / total`, in whole numbers; an
      empty output counts as one. */
  predicate BelowThreshold(vrfOutput: Bytes, stake: nat, total: nat)
  {
    if vrfOutput == [] then total < stake
    else LittleEndian(vrfOutput, 8) * total < stake * (TWO_TO_THE_64 - 1)
  }

  predicate IsSlotLeader(r: Registry, pubkey: Bytes, vrfOutput: Bytes)
  {
    pubkey in r.infos && r.totalStake != 0 && BelowThreshold(vrfOutput, r.infos[pubkey].stake, r.totalStake)
  }

  lemma SlashedNeverLeads(r: Registry, pubkey: Bytes, vrfOutput: Bytes)
    requires Sound(r) && pubkey in r.infos && r.infos[pubkey].slashed
    ensures !IsSlotLeader(r, pubkey, vrfOutput)
  {
    assert 0 <= LittleEndian(vrfOutput, 8) * r.totalStake;
  }

  /** More stake wins every slot that less stake wins, an empty output wins none, and the whole stake wins
      on every output but the greatest. */
  lemma LeadershipGrowsWithStake(vrfOutput: Bytes, stake: nat, more: nat, total: nat)
    requires stake <= more <= total
    ensures BelowThreshold(vrfOutput, stake, total) ==> BelowThreshold(vrfOutput, more, total)
    ensures vrfOutput == [] ==> !BelowThreshold(vrfOutput, more, total)
    ensures vrfOutput != [] && total > 0 ==>
      (BelowThreshold(vrfOutput, total, total) <==> LittleEndian(vrfOutput, 8) != TWO_TO_THE_64 - 1)
  {
    hide LittleEndian;
    LittleEndianBound(vrfOutput);
    if total > 0 { TimesLess(LittleEndian(vrfOutput, 8), TWO_TO_THE_64 - 1, total); }
  }

  lemma TimesLess(a: nat, b: nat, t: nat)
    requires t > 0
    ensures a * t < t * b <==> a < b
  {
    if a < b { assert (b - a) * t > 0; } else { assert (a - b) * t >= 0; }
  }

  lemma LittleEndianBound(bytes: Bytes)
    ensures LittleEndian(bytes, 8) < TWO_TO_THE_64
  {
    LittleEndianBelow(bytes, 8);
    assert Pow256(4) == 0x1_0000_0000;
    assert Pow256(8) == TWO_TO_THE_64;
  }

  lemma {:induction false} LittleEndianBelow(bytes: Bytes, count: nat)
    ensures LittleEndian(bytes, count) < Pow256(count)
    decreases count
  {
    if count > 0 && bytes != [] { LittleEndianBelow(bytes[1..], count - 1); }
  }

  function Pow256(count: nat): (p: nat)
    ensures p > 0
  {
    if count == 0 then 1 else 256 * Pow256(count - 1)
  }

  /** The number is positional: its digit at `i` to base 256 is the byte at `i`, or zero past the end. */
  lemma {:induction false} LittleEndianDigit(bytes: Bytes, count: nat, i: nat)
    requires i < count
    ensures LittleEndian(bytes, count) / Pow256(i) % 256 == if i < |bytes| then bytes[i] else 0
    decreases count
  {
    if bytes == [] {
      assert 0 / Pow256(i) == 0;
    } else {
      var rest := LittleEndian(bytes[1..], count - 1);
      if i > 0 {
        LittleEndianDigit(bytes[1..], count - 1, i - 1);
        DivideTwice(bytes[0], rest, Pow256(i - 1));
      }
    }
  }

  lemma DivideTwice(low: Byte, high: nat, d: nat)
    requires d > 0
    ensures (low + 256 * high) / (256 * d) == high / d
  {
    var q, r := high / d, high % d;
    assert high == d * q + r;
    assert low + 256 * high == (256 * d) * q + (256 * r + low);
    QuotientIs(low + 256 * high, 256 * d, q, 256 * r + low);
  }

  lemma QuotientIs(n: nat, d: nat, q: nat, r: nat)
    requires d > 0 && n == d * q + r && r < d
    ensures n / d == q
  {
    SameQuotient(d, n / d, n % d, q, r);
  }

  lemma SameQuotient(d: nat, p: nat, m: nat, q: nat, r: nat)
    requires m < d && r < d && d * p + m == d * q + r
    ensures p == q
  {
    if p < q {
      Stretch(d, p + 1, q);
    } else if q < p {
      Stretch(d, q + 1, p);
    }
  }

  lemma Stretch(d: nat, a: nat, b: nat)
    requires a <= b
    ensures d * a <= d * b
  {
    assert d * (b - a) >= 0;
  }

  /** The number of the 2^64 output values that win with `stake` of `total`: the stake's share, rounded up. */
  function WinningValues(stake: nat, total: nat): nat
    requires total > 0
  {
    (stake * (TWO_TO_THE_64 - 1) + total - 1) / total
  }

  /** With any output a registered validator leads exactly when the number read is among the first of its share. */
  lemma LeadsOnItsShare(r: Registry, pubkey: Bytes, vrfOutput: Bytes)
    requires pubkey in r.infos && r.totalStake > 0 && vrfOutput != []
    ensures IsSlotLeader(r, pubkey, vrfOutput) <==>
      LittleEndian(vrfOutput, 8) < WinningValues(r.infos[pubkey].stake, r.totalStake)
  {
    BelowCeiling(LittleEndian(vrfOutput, 8), r.infos[pubkey].stake * (TWO_TO_THE_64 - 1), r.totalStake);
    hide LittleEndian;
  }

  lemma BelowCeiling(v: nat, x: nat, t: nat)
    requires t > 0
    ensures v * t < x <==> v < (x + t - 1) / t
  {
    var q := (x + t - 1) / t;
    assert t * q <= x + t - 1 < t * q + t;
    if v < q { assert t * (v + 1) <= t * q; } else { assert t * q <= t * v; }
  }

  /** Whoever is not registered leads no slot, and nobody leads while the total is zero. */
  lemma OnlyRegisteredLead(r: Registry, pubkey: Bytes, vrfOutput: Bytes)
    requires IsSlotLeader(r, pubkey, vrfOutput)
    ensures pubkey in r.infos && r.totalStake > 0 && (Sound(r) && StakeSum(r) < TWO_TO_THE_64 ==> vrfOutput != [])
  {
    if Sound(r) && StakeSum(r) < TWO_TO_THE_64 { NoStakeUnderflows(r, pubkey); }
    hide Sound, StakeSum;
  }

  // ---------------------------------------------------------------------------------------
  // Quorums
  // ---------------------------------------------------------------------------------------

  function StakeOfVoter(r: Registry, pubkey: Bytes): U64
  {
    if pubkey in r.infos then r.infos[pubkey].stake else 0
  }

  /** The sum `check_finality` computes. */
  function VoteStake(votes: seq<Vote>, r: Registry): U64
  {
    if votes == [] then 0
    else Add64(VoteStake(votes[..|votes| - 1], r), StakeOfVoter(r, votes[|votes| - 1].validator))
  }

  /** More than 0.6666 of the total stake, in whole numbers. */
  predicate Quorum(votes: seq<Vote>, r: Registry)
  {
    r.totalStake > 0 && 10000 * VoteStake(votes, r) > 6666 * r.totalStake
  }

  ghost predicate DistinctVoters(votes: seq<Vote>)
  {
    forall i, j :: 0 <= i < j < |votes| ==> votes[i].validator != votes[j].validator
  }

  function Voters(votes: seq<Vote>): set<Bytes>
  {
    set i | 0 <= i < |votes| :: votes[i].validator
  }

  /** With distinct voters the computed sum is the stake of the set of voters. */
  lemma {:induction false} VoteStakeIsTotal(votes: seq<Vote>, r: Registry)
    requires DistinctVoters(votes) && StakeSum(r) < TWO_TO_THE_64
    ensures VoteStake(votes, r) == Total(Restrict(Stakes(r.infos), Voters(votes)))
  {
    hide Total;
    var m := Stakes(r.infos);
    if votes == [] {
      assert Restrict(m, Voters(votes)) == map[];
      TotalZero(Restrict(m, Voters(votes)));
    } else {
      var n := |votes| - 1;
      var rest, last := votes[..n], votes[n].validator;
      VoteStakeIsTotal(rest, r);
      VotersSplit(votes);
      TotalOneMore(m, Voters(rest), last);
      TotalSubset(m, Voters(votes));
      hide Restrict, Voters, Stakes;
    }
  }

  lemma TotalOneMore(m: map<Bytes, nat>, s: set<Bytes>, k: Bytes)
    requires k !in s
    ensures Total(Restrict(m, s + {k})) == Total(Restrict(m, s)) + At(m, k)
  {
    hide Total;
    TotalUnion(m, s, {k});
    TotalSingle(m, k);
    assert s * {k} == {};
    assert Restrict(m, {}) == map[];
    TotalZero(Restrict(m, {}));
  }

  lemma VotersSplit(votes: seq<Vote>)
    requires votes != [] && DistinctVoters(votes)
    ensures var n := |votes| - 1;
            Voters(votes) == Voters(votes[..n]) + {votes[n].validator} && votes[n].validator !in Voters(votes[..n])
  {
  }

  lemma TotalSingle(m: map<Bytes, nat>, k: Bytes)
    ensures Total(Restrict(m, {k})) == At(m, k)
  {
    hide Total;
    if k in m {
      TotalRemove(Restrict(m, {k}), k);
      assert Restrict(m, {k}) - {k} == map[];
      TotalZero(Restrict(m, {k}) - {k});
    } else {
      TotalZero(Restrict(m, {k}));
    }
  }

  /** Recorded stake never exceeds the total. */
  lemma VoteStakeWithinTotal(votes: seq<Vote>, r: Registry)
    requires DistinctVoters(votes) && Sound(r) && StakeSum(r) < TWO_TO_THE_64
    ensures VoteStake(votes, r) <= r.totalStake
  {
    hide Total;
    VoteStakeIsTotal(votes, r);
    TotalSubset(Stakes(r.infos), Voters(votes));
  }

  /** Quorum intersection: if two blocks both pass the threshold under one validator set, validators
      with more than 0.3332 of the total stake voted for both. */
  lemma QuorumsIntersect(a: seq<Vote>, b: seq<Vote>, r: Registry)
    requires DistinctVoters(a) && DistinctVoters(b) && Sound(r) && StakeSum(r) < TWO_TO_THE_64
    requires Quorum(a, r) && Quorum(b, r)
    ensures 10000 * Total(Restrict(Stakes(r.infos), Voters(a) * Voters(b))) > 3332 * r.totalStake
  {
    hide Total;
    VoteStakeIsTotal(a, r);
    VoteStakeIsTotal(b, r);
    TotalUnion(Stakes(r.infos), Voters(a), Voters(b));
    TotalSubset(Stakes(r.infos), Voters(a) + Voters(b));
  }

  /** The validator set with its running total. */
  class ValidatorSet {
    var validators: map<Bytes, ValidatorInfo>
    var totalStake: U64

    function View(): Registry
      reads this
    {
      Registry(validators, totalStake)
    }

    constructor ()
      ensures View() == Registry(map[], 0)
    {
      validators, totalStake := map[], 0;
    }

    method RegisterValidator(pubkey: Bytes, stake: U64, epoch: U64) returns (ok: bool)
      modifies this
      ensures View() == Register(old(View()), pubkey, stake, epoch)
      ensures ok <==> stake >= MIN_STAKE && pubkey !in old(validators)
    {
      if stake < MIN_STAKE { return false; }
      if pubkey in validators { return false; }
      validators := validators[pubkey := ValidatorInfo(pubkey, stake, epoch, false)];
      totalStake := Add64(totalStake, stake);
      ok := true;
    }

    method UnregisterValidator(pubkey: Bytes) returns (stake: Option<U64>)
      modifies this
      ensures View() == Unregister(old(View()), pubkey)
      ensures stake == if pubkey in old(validators) then Some(old(validators)[pubkey].stake) else None
    {
      if pubkey !in validators { return None; }
      var validator := validators[pubkey];
      validators := validators - {pubkey};
      totalStake := Sub64(totalStake, validator.stake);
      stake := Some(validator.stake);
    }

    method SlashValidator(pubkey: Bytes) returns (slashed: Option<U64>)
      modifies this
      ensures View() == Slash(old(View()), pubkey)
      ensures slashed.Some? <==> pubkey in old(validators) && !old(validators)[pubkey].slashed
      ensures slashed.Some? ==> slashed.value == old(validators)[pubkey].stake
    {
      if pubkey !in validators { return None; }
      var validator := validators[pubkey];
      if validator.slashed { return None; }
      totalStake := Sub64(totalStake, validator.stake);
      validators := validators[pubkey := validator.(slashed := true, stake := 0)];
      slashed := Some(validator.stake);
    }

    /** The summation loop of `check_finality`. */
    method SumVotes(votes: seq<Vote>) returns (total: U64)
      ensures total == VoteStake(votes, View())
    {
      total := 0;
      for i := 0 to |votes|
        invariant total == VoteStake(votes[..i], View())
      {
        assert votes[..i + 1][..i] == votes[..i];
        if votes[i].validator in validators {
          total := Add64(total, validators[votes[i].validator].stake);
        }
      }
      assert votes[..|votes|] == votes;
    }
  }
}
