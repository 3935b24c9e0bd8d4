/** Votes and finality along a run. */
module Finality {
  import opened Base
  import opened Totals
  import opened Ledger
  import opened Validators
  import opened Consensus
  import opened Node
  import opened Invariants
  import TrieModel

  /** The recorded votes of every block come from distinct validators. */
  ghost predicate VotesDistinct(n: Node)
  {
    forall h :: h in n.votes ==> DistinctVoters(n.votes[h])
  }

  function VotesFor(n: Node, h: Bytes): seq<Vote>
  {
    GetOr(Find(n.votes, h), [])
  }

  lemma DeliverKeepsVotes(c: Crypto, n: Node, b: Block, n': Node)
    requires HeadStored(n) && Next(c, n, Deliver(b), n')
    ensures n'.votes == n.votes && n'.finalized == n.finalized && n'.tables.votes == n.tables.votes
  {
    hide AddBlock, Accepted, ExecuteAll, Commits, Passed, Refused, IndexAll, Accept, Noted;
    BlockAtomicity(c, n, b, n'.root);
    AddBlockEffect(c, n, b, n'.root);
    if Accepted(c, n, b) {
      NotedKeepsLedger(n, b);
      AcceptKeepsVotes(n, b, Executed(c, n, b), n'.root);
      IndexAllFrame(c, Accept(Noted(n, b), b, Executed(c, n, b), n'.root), b, b.transactions);
    }
  }

  lemma AcceptKeepsVotes(n: Node, b: Block, l: Ledger, root': Option<TrieModel.Digest<Account>>)
    requires n.head in n.tables.blocks
    ensures var m := Accept(Noted(n, b), b, l, root');
            m.votes == n.votes && m.finalized == n.finalized && m.tables.votes == n.tables.votes
  {
    hide Improves, SeenHeader;
  }

  lemma CastKeepsDistinct(c: Crypto, n: Node, v: Vote)
    requires VotesDistinct(n)
    ensures VotesDistinct(AddVote(c, n, v).node)
  {
    hide Quorum;
    var votes := VotesFor(n, v.blockHash);
    if AddVote(c, n, v).accepted {
      assert DistinctVoters(votes + [v]);
    }
  }

  lemma NextKeepsDistinct(c: Crypto, n: Node, step: Step, n': Node)
    requires HeadStored(n) && VotesDistinct(n) && Next(c, n, step, n')
    ensures VotesDistinct(n')
  {
    hide AddBlock, AddVote, Commits, Accepted, EndowAll;
    if step.Deliver? {
      DeliverKeepsVotes(c, n, step.block, n');
    } else if step.Cast? {
      CastKeepsDistinct(c, n, step.vote);
    } else if step.PruneBefore? {
    } else if step.Reopen? {
    } else {
      assert step.Boot?;
    }
  }

  lemma {:induction false} RunKeepsDistinct(c: Crypto, states: seq<Node>, steps: seq<Step>, i: nat)
    requires IsRun(c, states, steps) && i <= |steps| && VotesDistinct(states[0])
    ensures VotesDistinct(states[i])
  {
    hide Next, VotesDistinct;
    if i > 0 {
      RunKeepsDistinct(c, states, steps, i - 1);
      NextKeepsDistinct(c, states[i - 1], steps[i - 1], states[i]);
    }
  }

  // ---------------------------------------------------------------------------------------
  // Signatures
  // ---------------------------------------------------------------------------------------

  /** The vote is signed and for the block. */
  predicate SignedFor(c: Crypto, v: Vote, h: Bytes)
  {
    c.voteSigned(v) && v.blockHash == h
  }

  /** Every recorded vote, in memory and on disk, is signed and recorded under its own block. */
  ghost predicate VotesSigned(c: Crypto, n: Node)
  {
    && (forall h, i :: h in n.votes && 0 <= i < |n.votes[h]| ==> SignedFor(c, n.votes[h][i], h))
    && (forall k :: k in n.tables.votes ==>
          SignedFor(c, n.tables.votes[k], k.0) && n.tables.votes[k].validator == k.1)
  }

  lemma CastKeepsSigned(c: Crypto, n: Node, v: Vote)
    requires VotesSigned(c, n)
    ensures VotesSigned(c, AddVote(c, n, v).node)
  {
    VoteVerdict(c, n, v);
    hide AddVote;
  }

  lemma NextKeepsSigned(c: Crypto, n: Node, step: Step, n': Node)
    requires HeadStored(n) && VotesSigned(c, n) && Next(c, n, step, n')
    ensures VotesSigned(c, n')
  {
    hide AddBlock, AddVote, Commits, Accepted, EndowAll;
    if step.Deliver? {
      DeliverKeepsVotes(c, n, step.block, n');
    } else if step.Cast? {
      CastKeepsSigned(c, n, step.vote);
    } else if step.PruneBefore? {
    } else if step.Reopen? {
    } else {
      assert step.Boot?;
    }
  }

  /** In all runs every recorded vote is signed by whom it names, for the block it is recorded under. */
  lemma {:induction false} RunKeepsSigned(c: Crypto, states: seq<Node>, steps: seq<Step>, i: nat)
    requires IsRun(c, states, steps) && i <= |steps| && VotesSigned(c, states[0])
    ensures VotesSigned(c, states[i])
  {
    hide Next, VotesSigned;
    if i > 0 {
      RunKeepsSigned(c, states, steps, i - 1);
      NextKeepsSigned(c, states[i - 1], steps[i - 1], states[i]);
    }
  }

  // ---------------------------------------------------------------------------------------
  // The verdict on a vote
  // ---------------------------------------------------------------------------------------

  /** A vote is accepted exactly when its validator is registered, it is signed, and no vote of the validator
      for the block is recorded; then it is recorded last, in memory and on disk, and nothing else is. */
  lemma VoteVerdict(c: Crypto, n: Node, v: Vote)
    ensures var r := AddVote(c, n, v);
            && (r.accepted <==>
                  && v.validator in n.validators.infos && c.voteSigned(v)
                  && forall u :: u in VotesFor(n, v.blockHash) ==> u.validator != v.validator)
            && (!r.accepted ==> r.node == n)
            && (r.accepted ==>
                  && r.node.votes == n.votes[v.blockHash := VotesFor(n, v.blockHash) + [v]]
                  && r.node.tables == n.tables.(votes := n.tables.votes[(v.blockHash, v.validator) := v]))
  {
    hide Quorum;
    var votes := VotesFor(n, v.blockHash);
    assert HasVoted(votes, v.validator) <==> exists u :: u in votes && u.validator == v.validator;
  }

  /** The stake of the validators that voted for the block. */
  ghost function StakeFor(n: Node, h: Bytes): nat
  {
    Total(Restrict(Stakes(n.validators.infos), Voters(VotesFor(n, h))))
  }

  /** An accepted vote finalizes its block exactly when the stake of the validators that voted for it is more
      than 0.6666 of the total. */
  lemma FinalizesIff(c: Crypto, n: Node, v: Vote)
    requires VotesDistinct(n) && StakeSum(n.validators) < TWO_TO_THE_64 && AddVote(c, n, v).accepted
    ensures var n' := AddVote(c, n, v).node;
            && n'.validators == n.validators
            && n'.finalized ==
                 if n.validators.totalStake > 0 && 10000 * StakeFor(n', v.blockHash) > 6666 * n.validators.totalStake
                 then v.blockHash else n.finalized
  {
    CastKeepsDistinct(c, n, v);
    VoteStakeIsTotal(VotesFor(n, v.blockHash) + [v], n.validators);
    hide StakeSum, Total, VoteStake, HasVoted;
  }

  /** Only a signed vote that completes a quorum finalizes a block, and a restart forgets finality. */
  lemma FinalizingNeedsQuorum(c: Crypto, n: Node, step: Step, n': Node)
    requires HeadStored(n) && Next(c, n, step, n') && n'.finalized != n.finalized
    ensures step.Reopen? || (step.Cast? && Quorum(VotesFor(n', n'.finalized), n'.validators))
    ensures step.Cast? ==> SignedFor(c, step.vote, n'.finalized)
  {
    hide AddBlock, Commits, Accepted, EndowAll, Quorum, HasVoted;
    if step.Deliver? {
      DeliverKeepsVotes(c, n, step.block, n');
    } else if step.Cast? {
    } else if step.PruneBefore? {
    } else if step.Boot? {
    } else {
      assert step.Reopen?;
    }
  }

  /** Over any run a block is finalized only by signed votes for it, of distinct validators, that make a quorum. */
  lemma FinalizedBySignedQuorum(c: Crypto, states: seq<Node>, steps: seq<Step>, i: nat, v: Vote)
    requires IsRun(c, states, steps) && VotesDistinct(states[0]) && VotesSigned(c, states[0]) && i < |steps|
    requires states[i + 1].finalized != states[i].finalized && !steps[i].Reopen?
    ensures var h, votes := states[i + 1].finalized, VotesFor(states[i + 1], states[i + 1].finalized);
            && Quorum(votes, states[i + 1].validators) && DistinctVoters(votes)
            && (v in votes ==> SignedFor(c, v, h))
  {
    FinalizingNeedsQuorum(c, states[i], steps[i], states[i + 1]);
    RunKeepsDistinct(c, states, steps, i + 1);
    RunKeepsSigned(c, states, steps, i + 1);
    hide IsRun, Next, Quorum;
  }

  /** If two steps of a run, under one validator set, finalize two blocks, then validators with more
      than 0.3332 of the total stake voted for both. */
  lemma ConflictingFinality(c: Crypto, states: seq<Node>, steps: seq<Step>, i: nat, j: nat)
    requires IsRun(c, states, steps) && VotesDistinct(states[0]) && i < |steps| && j < |steps|
    requires states[i + 1].finalized != states[i].finalized && states[j + 1].finalized != states[j].finalized
    requires !steps[i].Reopen? && !steps[j].Reopen? && states[i + 1].validators == states[j + 1].validators
    requires Sound(states[i + 1].validators) && StakeSum(states[i + 1].validators) < TWO_TO_THE_64
    ensures var r := states[i + 1].validators;
            var a := Voters(VotesFor(states[i + 1], states[i + 1].finalized));
            var b := Voters(VotesFor(states[j + 1], states[j + 1].finalized));
            10000 * Total(Restrict(Stakes(r.infos), a * b)) > 3332 * r.totalStake
  {
    FinalizingNeedsQuorum(c, states[i], steps[i], states[i + 1]);
    FinalizingNeedsQuorum(c, states[j], steps[j], states[j + 1]);
    RunKeepsDistinct(c, states, steps, i + 1);
    RunKeepsDistinct(c, states, steps, j + 1);
    hide IsRun, Next, Quorum, Sound, StakeSum, Total;
    QuorumsIntersect(VotesFor(states[i + 1], states[i + 1].finalized), VotesFor(states[j + 1], states[j + 1].finalized),
                     states[i + 1].validators);
  }
}
