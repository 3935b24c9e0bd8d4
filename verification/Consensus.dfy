/** Blocks, the checks a block passes against its parent, and the fork-choice order. */
module Consensus {
  import opened Base
  import opened Ledger
  import opened Validators
  import opened Merkle
  import opened Text
  import TrieModel

  datatype Header = Header(
    parentHash: Bytes,
    slot: U64,
    epoch: U64,
    vrfOutput: Bytes,
    vrfProof: Bytes,
    validator: Bytes,
    producerSignature: Bytes,
    stateRoot: TrieModel.Root<Account>,
    txRoot: Option<MerkleDigest>,
    extraWitnesses: seq<Bytes>,
    timestamp: int)

  datatype Block = Block(header: Header, transactions: seq<Transaction>, hash: Bytes)

  /** The cryptography the node calls, as parameters: every result holds whatever they compute. */
  datatype Crypto = Crypto(
    id: IdHash,
    txHash: Transaction -> Bytes,
    txSigned: Transaction -> bool,
    voteSigned: Vote -> bool,
    headerHash: Header -> Bytes,
    vrfValid: (Header, Header) -> bool)

  function TxHashes(c: Crypto, txs: seq<Transaction>): seq<Bytes>
  {
    seq(|txs|, i requires 0 <= i < |txs| => c.txHash(txs[i]))
  }

  datatype Rejection = ParentMismatch | SlotNotAfterParent | InvalidVrf | NotLeader | InvalidTxRoot

  /** `validate_block`: the first check that fails. */
  function Validate(c: Crypto, b: Block, parent: Block, r: Registry): Option<Rejection>
  {
    if b.header.parentHash != parent.hash then Some(ParentMismatch)
    else if b.header.slot <= parent.header.slot then Some(SlotNotAfterParent)
    else if !c.vrfValid(b.header, parent.header) then Some(InvalidVrf)
    else if !IsSlotLeader(r, b.header.validator, b.header.vrfOutput) then Some(NotLeader)
    else if b.header.txRoot != MerkleRoot(TxHashes(c, b.transactions)) then Some(InvalidTxRoot)
    else None
  }

  /** Two valid blocks with one transaction root and equally many transactions carry the same transaction hashes. */
  lemma TxRootBinds(c: Crypto, a: Block, b: Block, pa: Block, pb: Block, ra: Registry, rb: Registry)
    requires Validate(c, a, pa, ra).None? && Validate(c, b, pb, rb).None?
    requires a.header.txRoot == b.header.txRoot && |a.transactions| == |b.transactions|
    ensures TxHashes(c, a.transactions) == TxHashes(c, b.transactions)
  {
    MerkleRootBinds(TxHashes(c, a.transactions), TxHashes(c, b.transactions));
  }

  /** `Block::new`: the root of the transactions goes into the header before the header is hashed. */
  method NewBlock(c: Crypto, header: Header, transactions: seq<Transaction>) returns (b: Block)
    ensures b.transactions == transactions && b.hash == c.headerHash(b.header)
    ensures b.header == header.(txRoot := MerkleRoot(TxHashes(c, transactions)))
  {
    var root := CalculateMerkleRoot(TxHashes(c, transactions));
    var complete := header.(txRoot := root);
    b := Block(complete, transactions, c.headerHash(complete));
  }

  // ---------------------------------------------------------------------------------------
  // Fork choice
  // ---------------------------------------------------------------------------------------

  /** `is_better_block`: the higher slot, and on equal slots the smaller VRF output. */
  predicate IsBetter(a: Header, b: Header)
  {
    if a.slot > b.slot then true
    else if a.slot == b.slot then LexLess(a.vrfOutput, b.vrfOutput)
    else false
  }

  /** A strict order that only leaves headers with equal slot and VRF output incomparable. */
  lemma BetterIsStrictOrder(x: Header, y: Header, z: Header)
    ensures !(IsBetter(x, y) && IsBetter(y, x))
    ensures IsBetter(x, y) ==> x.slot >= y.slot
    ensures IsBetter(x, y) && IsBetter(y, z) ==> IsBetter(x, z)
    ensures !IsBetter(x, y) && !IsBetter(y, x) <==> x.slot == y.slot && x.vrfOutput == y.vrfOutput
  {
    LexTotal(x.vrfOutput, y.vrfOutput);
    if IsBetter(x, y) && IsBetter(y, z) && x.slot == z.slot {
      LexTransitive(x.vrfOutput, y.vrfOutput, z.vrfOutput);
    }
  }

  /** The greater slot wins, and on equal slots the VRF output that comes first. */
  lemma BetterIff(x: Header, y: Header)
    ensures IsBetter(x, y) <==> x.slot > y.slot || (x.slot == y.slot && Before(x.vrfOutput, y.vrfOutput))
  {
    LexLessIff(x.vrfOutput, y.vrfOutput);
    hide LexLess, Before;
  }

  /** What is no better than `y` is no better than anything better than `y`. */
  lemma NotBetterThanBest(x: Header, y: Header, z: Header)
    requires !IsBetter(x, y) && IsBetter(z, y)
    ensures !IsBetter(x, z)
  {
    if IsBetter(x, z) { BetterIsStrictOrder(x, z, y); }
  }
}
