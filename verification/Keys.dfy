/** The keys of the flat store. */
module Keys {
  import opened Base
  import opened Text

  const BLOCK: Bytes := [98, 108, 111, 99, 107, 58]  // block:
  const HEIGHT: Bytes := [104, 101, 105, 103, 104, 116, 58]  // height:
  const HEAD: Bytes := [104, 101, 97, 100]  // head
  const ACCOUNT: Bytes := [97, 99, 99, 111, 117, 110, 116, 58]  // account:
  const HEADER: Bytes := [104, 101, 97, 100, 101, 114, 58]  // header:
  const VOTE: Bytes := [118, 111, 116, 101, 58]  // vote:
  const TX_INDEX: Bytes := [116, 120, 95, 105, 110, 100, 101, 120, 58]  // tx_index:
  const HISTORY_COUNT: Bytes := [104, 105, 115, 116, 111, 114, 121, 95, 99, 111, 117, 110, 116, 58]  // history_count:
  const HISTORY: Bytes := [104, 105, 115, 116, 111, 114, 121, 58]  // history:
  const FAUCET: Bytes := [102, 97, 117, 99, 101, 116, 58]  // faucet:

  /** What a key addresses. Addresses of the history and hashes are text already. */
  datatype Key =
    | BlockKey(hash: Bytes)
    | HeightKey(height: U64)
    | HeadKey
    | AccountKey(address: Bytes)
    | HeaderKey(slot: U64, pubkey: Bytes)
    | VoteKey(hash: Bytes, pubkey: Bytes)
    | TxIndexKey(tx: Bytes)
    | HistoryCountKey(owner: Bytes)
    | HistoryKey(owner: Bytes, index: nat)
    | FaucetKey(claimant: Bytes)

  function Encode(k: Key): Bytes
  {
    match k
    case BlockKey(hash) => BLOCK + hash
    case HeightKey(height) => HEIGHT + Decimal(height)
    case HeadKey => HEAD
    case AccountKey(address) => ACCOUNT + address
    case HeaderKey(slot, pubkey) => HEADER + (Decimal(slot) + [COLON] + Hex(pubkey))
    case VoteKey(hash, pubkey) => VOTE + (hash + [COLON] + Hex(pubkey))
    case TxIndexKey(tx) => TX_INDEX + tx
    case HistoryCountKey(owner) => HISTORY_COUNT + owner
    case HistoryKey(owner, index) => HISTORY + (owner + [COLON] + Decimal(index))
    case FaucetKey(claimant) => FAUCET + claimant
  }

  /** The table a key belongs to, read off its first characters. */
  function TableOf(s: Bytes): nat
  {
    if s == [] then 99
    else if s[0] == 98 then 0
    else if s[0] == 97 then 3
    else if s[0] == 118 then 5
    else if s[0] == 116 then 6
    else if s[0] == 102 then 9
    else if |s| == 4 then 2
    else if |s| < 8 then 99
    else if s[1] == 105 then (if s[7] == 95 then 7 else 8)
    else if s[2] == 105 then 1
    else 4
  }

  function Ordinal(k: Key): nat
  {
    match k
    case BlockKey(_) => 0
    case HeightKey(_) => 1
    case HeadKey => 2
    case AccountKey(_) => 3
    case HeaderKey(_, _) => 4
    case VoteKey(_, _) => 5
    case TxIndexKey(_) => 6
    case HistoryCountKey(_) => 7
    case HistoryKey(_, _) => 8
    case FaucetKey(_) => 9
  }

  /** The tables are disjoint. */
  lemma EncodeTable(k: Key)
    ensures TableOf(Encode(k)) == Ordinal(k)
  {
    hide Decimal, Hex;
    match k {
      case HeightKey(height) => assert |Decimal(height)| > 0;
      case HeaderKey(slot, pubkey) => assert |Decimal(slot)| > 0;
      case _ =>
    }
  }

  lemma SameTail(tag: Bytes, a: Bytes, b: Bytes)
    requires tag + a == tag + b
    ensures a == b
  {
    assert (tag + a)[|tag|..] == a && (tag + b)[|tag|..] == b;
  }

  /** The key builders are injective, within a table and across tables. */
  lemma EncodeInjective(k: Key, m: Key)
    requires Encode(k) == Encode(m)
    ensures k == m
  {
    EncodeTable(k);
    EncodeTable(m);
    EncodeInjectiveInTable(k, m);
  }

  lemma EncodeInjectiveInTable(k: Key, m: Key)
    requires Encode(k) == Encode(m) && Ordinal(k) == Ordinal(m)
    ensures k == m
  {
    hide Decimal, Hex;
    if k.BlockKey? {
      SameTail(BLOCK, k.hash, m.hash);
    } else if k.HeightKey? {
      SameTail(HEIGHT, Decimal(k.height), Decimal(m.height));
      DecimalInjective(k.height, m.height);
    } else if k.AccountKey? {
      SameTail(ACCOUNT, k.address, m.address);
    } else if k.HeaderKey? {
      HeaderInjective(k.slot, k.pubkey, m.slot, m.pubkey);
    } else if k.VoteKey? {
      VoteInjective(k.hash, k.pubkey, m.hash, m.pubkey);
    } else if k.TxIndexKey? {
      SameTail(TX_INDEX, k.tx, m.tx);
    } else if k.HistoryCountKey? {
      SameTail(HISTORY_COUNT, k.owner, m.owner);
    } else if k.HistoryKey? {
      HistoryInjective(k.owner, k.index, m.owner, m.index);
    } else if k.FaucetKey? {
      SameTail(FAUCET, k.claimant, m.claimant);
    }
  }

  lemma HeaderInjective(slot: U64, pubkey: Bytes, slot': U64, pubkey': Bytes)
    requires Encode(HeaderKey(slot, pubkey)) == Encode(HeaderKey(slot', pubkey'))
    ensures slot == slot' && pubkey == pubkey'
  {
    hide Decimal, Hex;
    SameTail(HEADER, Decimal(slot) + [COLON] + Hex(pubkey), Decimal(slot') + [COLON] + Hex(pubkey'));
    SplitAtFirst(Decimal(slot), Hex(pubkey), Decimal(slot'), Hex(pubkey'));
    DecimalInjective(slot, slot');
    HexInjective(pubkey, pubkey');
  }

  lemma VoteInjective(hash: Bytes, pubkey: Bytes, hash': Bytes, pubkey': Bytes)
    requires Encode(VoteKey(hash, pubkey)) == Encode(VoteKey(hash', pubkey'))
    ensures hash == hash' && pubkey == pubkey'
  {
    hide Hex;
    SameTail(VOTE, hash + [COLON] + Hex(pubkey), hash' + [COLON] + Hex(pubkey'));
    SplitAtLast(hash, Hex(pubkey), hash', Hex(pubkey'));
    HexInjective(pubkey, pubkey');
  }

  lemma HistoryInjective(owner: Bytes, index: nat, owner': Bytes, index': nat)
    requires Encode(HistoryKey(owner, index)) == Encode(HistoryKey(owner', index'))
    ensures owner == owner' && index == index'
  {
    hide Decimal;
    SameTail(HISTORY, owner + [COLON] + Decimal(index), owner' + [COLON] + Decimal(index'));
    SplitAtLast(owner, Decimal(index), owner', Decimal(index'));
    DecimalInjective(index, index');
  }
}
