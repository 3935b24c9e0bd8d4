/** Blocks along a run, for blocks whose hash is the digest of their header: ancestry, the height
    index, and the head as the best accepted block. */
module Lineage {
  import opened Base
  import opened Text
  import opened Validators
  import opened Consensus
  import opened Node
  import opened Invariants

  predicate WellHashed(c: Crypto, b: Block)
  {
    b.hash == c.headerHash(b.header)
  }

  ghost predicate CollisionFree(c: Crypto)
  {
    forall g: Header, h: Header :: c.headerHash(g) == c.headerHash(h) ==> g == h
  }

  /** Every block is stored under its hash, which is the digest of its header. */
  ghost predicate Bound(c: Crypto, n: Node)
  {
    forall h :: h in n.tables.blocks ==> n.tables.blocks[h].hash == h && WellHashed(c, n.tables.blocks[h])
  }

  /** A delivered block is well hashed. */
  ghost predicate Honest(c: Crypto, step: Step)
  {
    step.Deliver? ==> WellHashed(c, step.block)
  }

  /** What a step does to blocks and heights. */
  ghost predicate BlocksStep(c: Crypto, n: Node, step: Step, n': Node)
    requires n.head in n.tables.blocks
  {
    if step.Deliver? && Accepted(c, n, step.block) then
      && n'.tables.blocks == n.tables.blocks[step.block.hash := step.block]
      && n'.tables.heights == n.tables.heights[step.block.header.slot := step.block.hash]
      && n'.head == if Improves(n, step.block) then step.block.hash else n.head
    else if step.PruneBefore? then
      && n'.tables.blocks == n.tables.blocks - Doomed(n.tables, step.target, n.head)
      && n'.tables.heights == n.tables.heights - PrunedHeights(n.tables, step.target)
      && n'.head == n.head
    else
      n'.tables.blocks == n.tables.blocks && n'.tables.heights == n.tables.heights && n'.head == n.head
  }

  lemma NextBlocks(c: Crypto, n: Node, step: Step, n': Node)
    requires HeadStored(n) && Next(c, n, step, n')
    ensures BlocksStep(c, n, step, n')
  {
    hide AddBlock, Commits, Accepted, EndowAll, AddVote, Improves;
    if step.Deliver? {
      DeliverBlocks(c, n, step.block, n');
    } else if step.Cast? {
      CastFrame(c, n, step.vote);
    } else if step.PruneBefore? {
    } else if step.Reopen? {
    } else {
      assert step.Boot?;
    }
  }

  lemma DeliverBlocks(c: Crypto, n: Node, b: Block, n': Node)
    requires HeadStored(n) && Next(c, n, Deliver(b), n')
    ensures BlocksStep(c, n, Deliver(b), n')
  {
    hide AddBlock, Accepted, ExecuteAll, IndexAll, Accept, Noted, Passed, Refused, Commits, Improves;
    BlockAtomicity(c, n, b, n'.root);
    AddBlockEffect(c, n, b, n'.root);
    NotedKeepsLedger(n, b);
    if Accepted(c, n, b) {
      HeadAfterAccept(n, b, Executed(c, n, b), n'.root);
      IndexAllFrame(c, Accept(Noted(n, b), b, Executed(c, n, b), n'.root), b, b.transactions);
    }
  }

  /** Under binding hashes a block can only replace a block with the same header. */
  lemma SameHashSameHeader(c: Crypto, n: Node, b: Block)
    requires CollisionFree(c) && Bound(c, n) && WellHashed(c, b) && b.hash in n.tables.blocks
    ensures n.tables.blocks[b.hash].header == b.header
  {
  }

  lemma NextKeepsBound(c: Crypto, n: Node, step: Step, n': Node)
    requires HeadStored(n) && Bound(c, n) && Honest(c, step) && Next(c, n, step, n')
    ensures Bound(c, n')
  {
    NextBlocks(c, n, step, n');
    hide Next, Accepted, Improves, WellHashed;
  }

  // ---------------------------------------------------------------------------------------
  // Heights
  // ---------------------------------------------------------------------------------------

  /** Every indexed height points to a stored block of that slot. */
  ghost predicate HeightsPoint(n: Node)
  {
    forall h :: h in n.tables.heights ==>
      n.tables.heights[h] in n.tables.blocks && n.tables.blocks[n.tables.heights[h]].header.slot == h
  }

  lemma AcceptKeepsHeights(c: Crypto, n: Node, b: Block, n': Node)
    requires CollisionFree(c) && Bound(c, n) && WellHashed(c, b) && HeightsPoint(n)
    requires n'.tables.blocks == n.tables.blocks[b.hash := b]
    requires n'.tables.heights == n.tables.heights[b.header.slot := b.hash]
    ensures HeightsPoint(n')
  {
    if b.hash in n.tables.blocks { SameHashSameHeader(c, n, b); }
    hide CollisionFree, Bound, WellHashed;
  }

  lemma PruneKeepsHeights(n: Node, target: U64, n': Node)
    requires HeightsPoint(n)
    requires n'.tables.blocks == n.tables.blocks - Doomed(n.tables, target, n.head)
    requires n'.tables.heights == n.tables.heights - PrunedHeights(n.tables, target)
    ensures HeightsPoint(n')
  {
  }

  /** The height index stays exact in every run, pruning and restarts included. */
  lemma NextKeepsHeights(c: Crypto, n: Node, step: Step, n': Node)
    requires CollisionFree(c) && HeadStored(n) && Bound(c, n) && Honest(c, step) && Next(c, n, step, n')
    requires HeightsPoint(n)
    ensures HeightsPoint(n')
  {
    NextBlocks(c, n, step, n');
    hide Next, CollisionFree, Bound, Accepted, Improves;
    if step.Deliver? && Accepted(c, n, step.block) {
      AcceptKeepsHeights(c, n, step.block, n');
    } else if step.PruneBefore? {
      PruneKeepsHeights(n, step.target, n');
    }
  }

  lemma {:induction false} RunKeepsHeights(c: Crypto, states: seq<Node>, steps: seq<Step>, i: nat)
    requires IsRun(c, states, steps) && i <= |steps| && CollisionFree(c)
    requires forall k :: 0 <= k < i ==> Honest(c, steps[k])
    requires Bound(c, states[0]) && HeightsPoint(states[0])
    ensures Bound(c, states[i]) && HeightsPoint(states[i])
  {
    hide Next, CollisionFree, Bound, HeightsPoint, Honest;
    if i > 0 {
      RunKeepsHeights(c, states, steps, i - 1);
      NextKeepsBound(c, states[i - 1], steps[i - 1], states[i]);
      NextKeepsHeights(c, states[i - 1], steps[i - 1], states[i]);
    }
  }

  // ---------------------------------------------------------------------------------------
  // Ancestry
  // ---------------------------------------------------------------------------------------

  /** Every stored block but the genesis has a stored parent with a smaller slot. */
  ghost predicate Rooted(n: Node, genesis: Bytes)
  {
    && genesis in n.tables.blocks
    && forall h :: h in n.tables.blocks && h != genesis ==> HasParent(n, n.tables.blocks[h].header)
  }

  predicate HasParent(n: Node, header: Header)
  {
    header.parentHash in n.tables.blocks && n.tables.blocks[header.parentHash].header.slot < header.slot
  }

  lemma AcceptedHasParent(c: Crypto, n: Node, b: Block)
    requires n.head in n.tables.blocks && Accepted(c, n, b)
    ensures HasParent(n, b.header)
  {
    AddBlockEffect(c, n, b, None);
    hide AddBlock, Accepted, ExecuteAll, SeenHeader, IsSlotLeader;
  }

  lemma AcceptKeepsRooted(c: Crypto, n: Node, b: Block, n': Node, genesis: Bytes)
    requires CollisionFree(c) && Bound(c, n) && WellHashed(c, b) && Rooted(n, genesis)
    requires HasParent(n, b.header) && n'.tables.blocks == n.tables.blocks[b.hash := b]
    ensures Rooted(n', genesis)
  {
    if b.hash in n.tables.blocks { SameHashSameHeader(c, n, b); }
    hide CollisionFree, Bound, WellHashed;
    assert forall h :: h in n.tables.blocks ==> h in n'.tables.blocks && n'.tables.blocks[h].header == n.tables.blocks[h].header;
  }

  lemma NextKeepsRooted(c: Crypto, n: Node, step: Step, n': Node, genesis: Bytes)
    requires CollisionFree(c) && HeadStored(n) && Bound(c, n) && Honest(c, step) && Next(c, n, step, n')
    requires Rooted(n, genesis) && !step.PruneBefore?
    ensures Rooted(n', genesis)
  {
    NextBlocks(c, n, step, n');
    hide Next, CollisionFree, Bound, Accepted, Improves;
    if step.Deliver? && Accepted(c, n, step.block) {
      AcceptedHasParent(c, n, step.block);
      AcceptKeepsRooted(c, n, step.block, n', genesis);
    }
  }

  lemma {:induction false} RunKeepsRooted(c: Crypto, states: seq<Node>, steps: seq<Step>, i: nat, genesis: Bytes)
    requires IsRun(c, states, steps) && i <= |steps| && CollisionFree(c)
    requires forall k :: 0 <= k < i ==> Honest(c, steps[k]) && !steps[k].PruneBefore?
    requires Bound(c, states[0]) && Rooted(states[0], genesis)
    ensures Bound(c, states[i]) && Rooted(states[i], genesis)
  {
    hide Next, CollisionFree, Bound, Rooted, Honest;
    if i > 0 {
      RunKeepsRooted(c, states, steps, i - 1, genesis);
      NextKeepsBound(c, states[i - 1], steps[i - 1], states[i]);
      NextKeepsRooted(c, states[i - 1], steps[i - 1], states[i], genesis);
    }
  }

  /** `path` follows parent links in `n`. */
  ghost predicate FollowsParents(n: Node, path: seq<Bytes>)
  {
    && (forall i :: 0 <= i < |path| ==> path[i] in n.tables.blocks)
    && (forall i :: 0 <= i < |path| - 1 ==> path[i + 1] == n.tables.blocks[path[i]].header.parentHash)
  }

  /** From any stored block, parent links reach the genesis in at most as many steps as its slot. */
  lemma {:induction false} PathToGenesis(n: Node, genesis: Bytes, h: Bytes) returns (path: seq<Bytes>)
    requires Rooted(n, genesis) && h in n.tables.blocks
    ensures FollowsParents(n, path) && path != [] && path[0] == h && path[|path| - 1] == genesis
    ensures |path| - 1 <= n.tables.blocks[h].header.slot
    decreases n.tables.blocks[h].header.slot
  {
    if h == genesis {
      path := [h];
    } else {
      var parent := n.tables.blocks[h].header.parentHash;
      assert HasParent(n, n.tables.blocks[h].header);
      var rest := PathToGenesis(n, genesis, parent);
      path := [h] + rest;
      assert forall i :: 1 <= i < |path| ==> path[i] == rest[i - 1];
    }
  }

  // ---------------------------------------------------------------------------------------
  // Fork choice
  // ---------------------------------------------------------------------------------------

  function HeadHeader(n: Node): Header
    requires n.head in n.tables.blocks
  {
    n.tables.blocks[n.head].header
  }

  /** The header of the head is one of `headers`, and none of them is better. */
  ghost predicate Best(n: Node, headers: set<Header>)
    requires n.head in n.tables.blocks
  {
    HeadHeader(n) in headers && forall x :: x in headers ==> !IsBetter(x, HeadHeader(n))
  }

  /** The headers a step adds to the accepted ones. */
  ghost function StepHeaders(c: Crypto, n: Node, step: Step): set<Header>
    requires n.head in n.tables.blocks
  {
    if step.Deliver? && Accepted(c, n, step.block) then {step.block.header} else {}
  }

  lemma AcceptKeepsBest(c: Crypto, n: Node, b: Block, n': Node, headers: set<Header>)
    requires CollisionFree(c) && HeadStored(n) && Bound(c, n) && WellHashed(c, b) && Best(n, headers)
    requires n'.tables.blocks == n.tables.blocks[b.hash := b]
    requires n'.head == if Improves(n, b) then b.hash else n.head
    ensures n'.head in n'.tables.blocks && Best(n', headers + {b.header})
    ensures Improves(n, b) ==> IsBetter(HeadHeader(n'), HeadHeader(n))
    ensures !Improves(n, b) ==> HeadHeader(n') == HeadHeader(n)
  {
    if b.hash in n.tables.blocks { SameHashSameHeader(c, n, b); }
    hide CollisionFree, Bound, WellHashed, IsBetter;
    if Improves(n, b) {
      forall x | x in headers ensures !IsBetter(x, b.header) {
        NotBetterThanBest(x, HeadHeader(n), b.header);
      }
      BetterIsStrictOrder(b.header, b.header, b.header);
    }
  }

  /** The head only ever moves to a strictly better block. */
  lemma NextKeepsBest(c: Crypto, n: Node, step: Step, n': Node, headers: set<Header>)
    requires CollisionFree(c) && HeadStored(n) && Bound(c, n) && Honest(c, step) && Next(c, n, step, n')
    requires Best(n, headers)
    ensures HeadStored(n') && Best(n', headers + StepHeaders(c, n, step))
    ensures HeadHeader(n') == HeadHeader(n) || IsBetter(HeadHeader(n'), HeadHeader(n))
  {
    NextBlocks(c, n, step, n');
    NextKeepsHead(c, n, step, n');
    hide Next, CollisionFree, Bound, Accepted, Improves, IsBetter;
    if step.Deliver? && Accepted(c, n, step.block) {
      AcceptKeepsBest(c, n, step.block, n', headers);
    } else {
      assert HeadHeader(n') == HeadHeader(n);
      assert headers + StepHeaders(c, n, step) == headers;
    }
  }

  /** The headers of the initial head and of the blocks the first `i` steps accepted. */
  ghost function AcceptedHeaders(c: Crypto, states: seq<Node>, steps: seq<Step>, i: nat): set<Header>
    requires IsRun(c, states, steps) && i <= |steps| && HeadStored(states[0])
  {
    if i == 0 then {HeadHeader(states[0])}
    else AcceptedHeaders(c, states, steps, i - 1) + StepHeaders(c, states[i - 1], steps[i - 1])
  }

  /** No accepted block is better than the head. */
  lemma {:induction false} HeadIsBest(c: Crypto, states: seq<Node>, steps: seq<Step>, i: nat)
    requires IsRun(c, states, steps) && i <= |steps| && CollisionFree(c) && HeadStored(states[0])
    requires Bound(c, states[0]) && forall k :: 0 <= k < i ==> Honest(c, steps[k])
    ensures HeadStored(states[i]) && Bound(c, states[i]) && Best(states[i], AcceptedHeaders(c, states, steps, i))
  {
    hide Next, CollisionFree, Bound, Honest, Best, StepHeaders;
    if i > 0 {
      HeadIsBest(c, states, steps, i - 1);
      NextKeepsBound(c, states[i - 1], steps[i - 1], states[i]);
      NextKeepsBest(c, states[i - 1], steps[i - 1], states[i], AcceptedHeaders(c, states, steps, i - 1));
    } else {
      BestAlone(states[0]);
    }
  }

  /** Over any run the head has the greatest slot of the accepted blocks, and among those of that slot no VRF
      output comes before its own. */
  lemma HeadHasGreatestSlot(c: Crypto, states: seq<Node>, steps: seq<Step>, i: nat, x: Header)
    requires IsRun(c, states, steps) && i <= |steps| && CollisionFree(c) && HeadStored(states[0])
    requires Bound(c, states[0]) && forall k :: 0 <= k < i ==> Honest(c, steps[k])
    requires x in AcceptedHeaders(c, states, steps, i)
    ensures HeadStored(states[i])
    ensures x.slot <= HeadHeader(states[i]).slot
    ensures x.slot == HeadHeader(states[i]).slot ==> !Before(x.vrfOutput, HeadHeader(states[i]).vrfOutput)
  {
    HeadIsBest(c, states, steps, i);
    BetterIff(x, HeadHeader(states[i]));
    hide IsRun, CollisionFree, Bound, Honest, AcceptedHeaders, IsBetter, Before;
  }

  /** An accepted block becomes the head exactly when its slot is greater, or equal with a VRF output that
      comes before the head's; otherwise the head stays. */
  lemma HeadMovesIff(c: Crypto, n: Node, b: Block, n': Node)
    requires HeadStored(n) && Next(c, n, Deliver(b), n') && Accepted(c, n, b)
    ensures n'.head ==
      if b.header.slot > HeadHeader(n).slot
         || (b.header.slot == HeadHeader(n).slot && Before(b.header.vrfOutput, HeadHeader(n).vrfOutput))
      then b.hash else n.head
  {
    NextBlocks(c, n, Deliver(b), n');
    BetterIff(b.header, HeadHeader(n));
    hide Next, Accepted, IsBetter, Before;
  }

  lemma BestAlone(n: Node)
    requires HeadStored(n)
    ensures Best(n, {HeadHeader(n)})
  {
    BetterIsStrictOrder(HeadHeader(n), HeadHeader(n), HeadHeader(n));
    hide IsBetter;
  }

  /** No two headers of the set tie in slot and VRF output. */
  ghost predicate NoTies(headers: set<Header>)
  {
    forall x, y :: x in headers && y in headers && x.slot == y.slot && x.vrfOutput == y.vrfOutput ==> x == y
  }

  lemma BestIsUnique(n: Node, m: Node, headers: set<Header>)
    requires n.head in n.tables.blocks && m.head in m.tables.blocks && Best(n, headers) && Best(m, headers) && NoTies(headers)
    ensures HeadHeader(n) == HeadHeader(m)
  {
    BetterIsStrictOrder(HeadHeader(n), HeadHeader(m), HeadHeader(n));
    hide IsBetter;
  }

  /** Two nodes that accepted the same blocks have the same head, whatever the order of arrival,
      unless two blocks tie. */
  lemma SameBlocksSameHead(c: Crypto, states: seq<Node>, steps: seq<Step>, states': seq<Node>, steps': seq<Step>)
    requires CollisionFree(c) && IsRun(c, states, steps) && IsRun(c, states', steps')
    requires HeadStored(states[0]) && HeadStored(states'[0]) && Bound(c, states[0]) && Bound(c, states'[0])
    requires forall k :: 0 <= k < |steps| ==> Honest(c, steps[k])
    requires forall k :: 0 <= k < |steps'| ==> Honest(c, steps'[k])
    requires AcceptedHeaders(c, states, steps, |steps|) == AcceptedHeaders(c, states', steps', |steps'|)
    requires NoTies(AcceptedHeaders(c, states, steps, |steps|))
    ensures states[|steps|].head == states'[|steps'|].head
  {
    var n, m := states[|steps|], states'[|steps'|];
    HeadIsBest(c, states, steps, |steps|);
    HeadIsBest(c, states', steps', |steps'|);
    BestIsUnique(n, m, AcceptedHeaders(c, states, steps, |steps|));
    HeadHashIsHeaders(c, n);
    HeadHashIsHeaders(c, m);
    hide IsRun, CollisionFree, Bound, Honest, Best, AcceptedHeaders, NoTies;
  }

  lemma HeadHashIsHeaders(c: Crypto, n: Node)
    requires HeadStored(n) && Bound(c, n)
    ensures n.head == c.headerHash(HeadHeader(n))
  {
  }
}
