/** The flat key-value store and the tables it stands for. */
module Storage {
  import opened Base
  import opened Text
  import opened Keys
  import opened Ledger
  import opened Validators
  import opened Consensus
  import opened Node

  /** A stored value; serialisation is its injective encoding. */
  datatype Value =
    | BlockValue(block: Block)
    | HashValue(hash: Bytes)
    | AccountValue(account: Account)
    | VoteValue(vote: Vote)
    | CountValue(count: nat)

  type Database = map<Bytes, Value>

  /** What the tables put under a key. */
  function Entry(t: Tables, accounts: map<Bytes, Account>, k: Key): Option<Value>
  {
    match k
    case BlockKey(h) => if h in t.blocks then Some(BlockValue(t.blocks[h])) else None
    case HeightKey(h) => if h in t.heights then Some(HashValue(t.heights[h])) else None
    case HeadKey => if t.head.Some? then Some(HashValue(t.head.value)) else None
    case AccountKey(a) => if a in accounts then Some(AccountValue(accounts[a])) else None
    case HeaderKey(slot, pubkey) => if (slot, pubkey) in t.headers then Some(HashValue(t.headers[(slot, pubkey)])) else None
    case VoteKey(h, pubkey) => if (h, pubkey) in t.votes then Some(VoteValue(t.votes[(h, pubkey)])) else None
    case TxIndexKey(tx) => if tx in t.txIndex then Some(HashValue(t.txIndex[tx])) else None
    case HistoryCountKey(a) => if a in t.history then Some(CountValue(|t.history[a]|)) else None
    case HistoryKey(a, i) => if a in t.history && i < |t.history[a]| then Some(HashValue(t.history[a][i])) else None
    case FaucetKey(_) => None
  }

  /** The flat store holds exactly what the tables say. */
  ghost predicate Refines(db: Database, t: Tables, accounts: map<Bytes, Account>)
  {
    && (forall k: Key :: Find(db, Encode(k)) == Entry(t, accounts, k))
    && (forall s :: s in db ==> exists k: Key :: Encode(k) == s)
  }

  /** Nothing but the content of `k` differs. */
  ghost predicate SameElsewhere(t: Tables, accounts: map<Bytes, Account>, t': Tables, accounts': map<Bytes, Account>,
        k: Key)
  {
    forall m: Key :: m != k ==> Entry(t', accounts', m) == Entry(t, accounts, m)
  }

  /** Writing one key of the flat store changes one table entry and nothing else. */
  lemma PutRefines(db: Database, t: Tables, accounts: map<Bytes, Account>, t': Tables, accounts': map<Bytes, Account>,
        k: Key, v: Value)
    requires Refines(db, t, accounts) && SameElsewhere(t, accounts, t', accounts', k)
    requires Entry(t', accounts', k) == Some(v)
    ensures Refines(db[Encode(k) := v], t', accounts')
  {
    hide Entry, Encode;
    forall m: Key ensures Find(db[Encode(k) := v], Encode(m)) == Entry(t', accounts', m) {
      if Encode(m) == Encode(k) { EncodeInjective(m, k); }
      assert Find(db, Encode(m)) == Entry(t, accounts, m);
    }
  }

  lemma DeleteRefines(db: Database, t: Tables, accounts: map<Bytes, Account>, t': Tables, k: Key)
    requires Refines(db, t, accounts) && SameElsewhere(t, accounts, t', accounts, k)
    requires Entry(t', accounts, k) == None
    ensures Refines(db - {Encode(k)}, t', accounts)
  {
    hide Entry, Encode;
    forall m: Key ensures Find(db - {Encode(k)}, Encode(m)) == Entry(t', accounts, m) {
      if Encode(m) == Encode(k) { EncodeInjective(m, k); }
      assert Find(db, Encode(m)) == Entry(t, accounts, m);
    }
  }

  lemma EntryFound(db: Database, t: Tables, accounts: map<Bytes, Account>, k: Key)
    requires Refines(db, t, accounts)
    ensures Find(db, Encode(k)) == Entry(t, accounts, k)
  {
    hide Encode, Entry;
  }

  const NO_TABLES: Tables := Tables(map[], map[], None, map[], map[], map[], map[])

  class Store {
    var db: Database
    ghost var tables: Tables
    ghost var accounts: map<Bytes, Account>

    ghost predicate Valid()
      reads this
    {
      Refines(db, tables, accounts)
    }

    constructor ()
      ensures Valid() && tables == NO_TABLES && accounts == map[]
    {
      db, tables, accounts := map[], NO_TABLES, map[];
      new;
      assert forall k: Key :: Entry(tables, accounts, k) == None;
    }

    method StoreBlock(b: Block)
      requires Valid()
      modifies this
      ensures Valid() && accounts == old(accounts)
      ensures tables == old(tables).(blocks := old(tables).blocks[b.hash := b])
    {
      hide Encode, Refines;
      ghost var t := tables.(blocks := tables.blocks[b.hash := b]);
      PutRefines(db, tables, accounts, t, accounts, BlockKey(b.hash), BlockValue(b));
      db := db[Encode(BlockKey(b.hash)) := BlockValue(b)];
      tables := t;
    }

    method GetBlock(hash: Bytes) returns (b: Option<Block>)
      requires Valid()
      ensures b == Find(tables.blocks, hash)
    {
      EntryFound(db, tables, accounts, BlockKey(hash));
      var key := Encode(BlockKey(hash));
      b := if key in db then Some(db[key].block) else None;
    }

    method StoreBlockByHeight(height: U64, hash: Bytes)
      requires Valid()
      modifies this
      ensures Valid() && accounts == old(accounts)
      ensures tables == old(tables).(heights := old(tables).heights[height := hash])
    {
      hide Encode, Refines;
      ghost var t := tables.(heights := tables.heights[height := hash]);
      PutRefines(db, tables, accounts, t, accounts, HeightKey(height), HashValue(hash));
      db := db[Encode(HeightKey(height)) := HashValue(hash)];
      tables := t;
    }

    method GetBlockByHeight(height: U64) returns (hash: Option<Bytes>)
      requires Valid()
      ensures hash == Find(tables.heights, height)
    {
      EntryFound(db, tables, accounts, HeightKey(height));
      var key := Encode(HeightKey(height));
      hash := if key in db then Some(db[key].hash) else None;
    }

    method StoreHead(hash: Bytes)
      requires Valid()
      modifies this
      ensures Valid() && accounts == old(accounts)
      ensures tables == old(tables).(head := Some(hash))
    {
      hide Encode, Refines;
      ghost var t := tables.(head := Some(hash));
      PutRefines(db, tables, accounts, t, accounts, HeadKey, HashValue(hash));
      db := db[Encode(HeadKey) := HashValue(hash)];
      tables := t;
    }

    method GetHead() returns (hash: Option<Bytes>)
      requires Valid()
      ensures hash == tables.head
    {
      EntryFound(db, tables, accounts, HeadKey);
      var key := Encode(HeadKey);
      hash := if key in db then Some(db[key].hash) else None;
    }

    method StoreAccount(address: Bytes, account: Account)
      requires Valid()
      modifies this
      ensures Valid() && tables == old(tables)
      ensures accounts == old(accounts)[address := account]
    {
      PutRefines(db, tables, accounts, tables, accounts[address := account], AccountKey(address), AccountValue(account));
      db := db[Encode(AccountKey(address)) := AccountValue(account)];
      accounts := accounts[address := account];
    }

    method GetAccount(address: Bytes) returns (account: Option<Account>)
      requires Valid()
      ensures account == Find(accounts, address)
    {
      EntryFound(db, tables, accounts, AccountKey(address));
      var key := Encode(AccountKey(address));
      account := if key in db then Some(db[key].account) else None;
    }

    method StoreSeenHeader(slot: U64, pubkey: Bytes, hash: Bytes)
      requires Valid()
      modifies this
      ensures Valid() && accounts == old(accounts)
      ensures tables == old(tables).(headers := old(tables).headers[(slot, pubkey) := hash])
    {
      hide Encode, Refines;
      ghost var t := tables.(headers := tables.headers[(slot, pubkey) := hash]);
      PutRefines(db, tables, accounts, t, accounts, HeaderKey(slot, pubkey), HashValue(hash));
      db := db[Encode(HeaderKey(slot, pubkey)) := HashValue(hash)];
      tables := t;
    }

    method GetSeenHeader(slot: U64, pubkey: Bytes) returns (hash: Option<Bytes>)
      requires Valid()
      ensures hash == Find(tables.headers, (slot, pubkey))
    {
      EntryFound(db, tables, accounts, HeaderKey(slot, pubkey));
      var key := Encode(HeaderKey(slot, pubkey));
      hash := if key in db then Some(db[key].hash) else None;
    }

    method StoreVote(v: Vote)
      requires Valid()
      modifies this
      ensures Valid() && accounts == old(accounts)
      ensures tables == old(tables).(votes := old(tables).votes[(v.blockHash, v.validator) := v])
    {
      hide Encode, Refines;
      ghost var t := tables.(votes := tables.votes[(v.blockHash, v.validator) := v]);
      PutRefines(db, tables, accounts, t, accounts, VoteKey(v.blockHash, v.validator), VoteValue(v));
      db := db[Encode(VoteKey(v.blockHash, v.validator)) := VoteValue(v)];
      tables := t;
    }

    method StoreTransactionIndex(tx: Bytes, hash: Bytes)
      requires Valid()
      modifies this
      ensures Valid() && accounts == old(accounts)
      ensures tables == old(tables).(txIndex := old(tables).txIndex[tx := hash])
    {
      hide Encode, Refines;
      ghost var t := tables.(txIndex := tables.txIndex[tx := hash]);
      PutRefines(db, tables, accounts, t, accounts, TxIndexKey(tx), HashValue(hash));
      db := db[Encode(TxIndexKey(tx)) := HashValue(hash)];
      tables := t;
    }

    method GetTransactionBlock(tx: Bytes) returns (hash: Option<Bytes>)
      requires Valid()
      ensures hash == Find(tables.txIndex, tx)
    {
      EntryFound(db, tables, accounts, TxIndexKey(tx));
      var key := Encode(TxIndexKey(tx));
      hash := if key in db then Some(db[key].hash) else None;
    }

    /** The item first, then the count: together they append to the log of the address. */
    method AddTransactionToAddress(address: Bytes, tx: Bytes)
      requires Valid()
      modifies this
      ensures Valid() && accounts == old(accounts)
      ensures tables == old(tables).(history := Append(old(tables).history, address, tx))
    {
      EntryFound(db, tables, accounts, HistoryCountKey(address));
      var countKey := Encode(HistoryCountKey(address));
      var count := if countKey in db then db[countKey].count else 0;
      ghost var t := tables.(history := Append(tables.history, address, tx));
      AppendRefines(db, tables, accounts, address, tx, count);
      db := db[Encode(HistoryKey(address, count)) := HashValue(tx)];
      db := db[countKey := CountValue(count + 1)];
      tables := t;
    }

    /** The last `limit` entries of the log, newest first. */
    method GetAddressHistory(address: Bytes, limit: nat) returns (history: seq<Bytes>)
      requires Valid()
      ensures var log := GetOr(Find(tables.history, address), []);
              && |history| == (if limit < |log| then limit else |log|)
              && forall i :: 0 <= i < |history| ==> history[i] == log[|log| - 1 - i]
    {
      hide Encode, Refines;
      EntryFound(db, tables, accounts, HistoryCountKey(address));
      var countKey := Encode(HistoryCountKey(address));
      history := [];
      if countKey !in db { return; }
      var count := db[countKey].count;
      if count == 0 { return; }
      var end := if count > limit then count - limit else 0;
      ghost var log := tables.history[address];
      var i := count;
      while i > end
        invariant end <= i <= count == |log| && |history| == count - i
        invariant forall j :: 0 <= j < |history| ==> history[j] == log[count - 1 - j]
      {
        i := i - 1;
        EntryFound(db, tables, accounts, HistoryKey(address, i));
        var key := Encode(HistoryKey(address, i));
        if key in db { history := history + [db[key].hash]; }
      }
    }

    method DeleteBlock(hash: Bytes)
      requires Valid()
      modifies this
      ensures Valid() && accounts == old(accounts)
      ensures tables == old(tables).(blocks := old(tables).blocks - {hash})
    {
      hide Encode, Refines;
      ghost var t := tables.(blocks := tables.blocks - {hash});
      DeleteRefines(db, tables, accounts, t, BlockKey(hash));
      db := db - {Encode(BlockKey(hash))};
      tables := t;
    }

    method DeleteHeight(height: U64)
      requires Valid()
      modifies this
      ensures Valid() && accounts == old(accounts)
      ensures tables == old(tables).(heights := old(tables).heights - {height})
    {
      hide Encode, Refines;
      ghost var t := tables.(heights := tables.heights - {height});
      DeleteRefines(db, tables, accounts, t, HeightKey(height));
      db := db - {Encode(HeightKey(height))};
      tables := t;
    }

    /** The counted loop over heights from one: it removes exactly the indexed heights below the target
        and the blocks they point to, except the head. */
    method PruneBlocksBefore(target: U64, head: Bytes) returns (deleted: nat)
      requires Valid()
      modifies this
      ensures Valid() && accounts == old(accounts)
      ensures tables == PruneTables(old(tables), target, head)
      ensures deleted == |DeletedHeights(old(tables), target, head)|
    {
      deleted := 0;
      var h: U64 := 1;
      ghost var t := tables;
      PruneNothing(t, head);
      while h < target
        invariant 1 <= h && (h <= target || h == 1)
        invariant Valid() && accounts == old(accounts)
        invariant tables == PruneTables(t, h, head)
        invariant deleted == |DeletedHeights(t, h, head)|
        decreases target - h
      {
        var hash := GetBlockByHeight(h);
        PruneOne(t, h, head);
        if hash.Some? {
          DeleteHeight(h);
          if hash.value != head {
            DeleteBlock(hash.value);
            deleted := deleted + 1;
          }
        }
        h := h + 1;
      }
      if target == 0 { PruneNothingAtZero(t, head); }
    }

    /** The sorted scan from the prefix: it returns every account exactly once, in ascending order of the addresses. */
    method GetAllAccounts() returns (list: seq<(Bytes, Account)>)
      requires Valid()
      ensures IsOrdering(Addresses(list), accounts.Keys)
      ensures forall i :: 0 <= i < |list| ==> list[i].0 in accounts && list[i].1 == accounts[list[i].0]
      ensures forall i, j :: 0 <= i < j < |list| ==> LexLess(list[i].0, list[j].0)
    {
      list := [];
      var rest := set k | k in db && !LexLess(k, ACCOUNT);
      ghost var found := accounts;
      while rest != {}
        invariant Scanned(db, found, list, rest)
        decreases |rest|
      {
        var key := Least(rest);
        if !(ACCOUNT <= key) {
          NoneAfter(rest, key);
          break;
        }
        ScanStep(db, tables, found, list, rest, key);
        list := list + [(AddressOf(key), db[key].account)];
        rest := rest - {key};
      }
      ScanIsComplete(db, tables, accounts, list, rest);
    }
  }

  function Addresses(list: seq<(Bytes, Account)>): seq<Bytes>
  {
    seq(|list|, i requires 0 <= i < |list| => list[i].0)
  }

  function AddressOf(key: Bytes): Bytes
    requires |key| >= |ACCOUNT|
  {
    key[|ACCOUNT|..]
  }

  /** The indexed heights whose block a pruning deletes. */
  function DeletedHeights(t: Tables, target: U64, head: Bytes): set<U64>
  {
    set h | h in t.heights && 1 <= h < target && t.heights[h] != head
  }

  lemma PruneNothing(t: Tables, head: Bytes)
    ensures PruneTables(t, 1, head) == t && DeletedHeights(t, 1, head) == {}
  {
    assert PrunedHeights(t, 1) == {} && Doomed(t, 1, head) == {};
    assert t.heights - {} == t.heights && t.blocks - {} == t.blocks;
  }

  lemma PruneNothingAtZero(t: Tables, head: Bytes)
    ensures PruneTables(t, 0, head) == PruneTables(t, 1, head) && DeletedHeights(t, 0, head) == DeletedHeights(t, 1, head)
  {
    assert PrunedHeights(t, 0) == PrunedHeights(t, 1) && Doomed(t, 0, head) == Doomed(t, 1, head);
  }

  /** One turn of the pruning loop. */
  function PruneAt(t: Tables, h: U64, head: Bytes): Tables
  {
    if h !in t.heights then t
    else if t.heights[h] == head then t.(heights := t.heights - {h})
    else t.(heights := t.heights - {h}, blocks := t.blocks - {t.heights[h]})
  }

  lemma PruneOne(t: Tables, h: U64, head: Bytes)
    requires 1 <= h < TWO_TO_THE_64 - 1
    ensures Find(PruneTables(t, h, head).heights, h) == Find(t.heights, h)
    ensures PruneTables(t, h + 1, head) == PruneAt(PruneTables(t, h, head), h, head)
    ensures |DeletedHeights(t, h + 1, head)| == |DeletedHeights(t, h, head)| + if h in t.heights && t.heights[h] != head then 1 else 0
  {
    if h in t.heights {
      assert PrunedHeights(t, h + 1) == PrunedHeights(t, h) + {h};
      assert t.heights - (PrunedHeights(t, h) + {h}) == t.heights - PrunedHeights(t, h) - {h};
      if t.heights[h] == head {
        assert Doomed(t, h + 1, head) == Doomed(t, h, head);
        assert DeletedHeights(t, h + 1, head) == DeletedHeights(t, h, head);
      } else {
        assert Doomed(t, h + 1, head) == Doomed(t, h, head) + {t.heights[h]};
        assert t.blocks - (Doomed(t, h, head) + {t.heights[h]}) == t.blocks - Doomed(t, h, head) - {t.heights[h]};
        assert DeletedHeights(t, h + 1, head) == DeletedHeights(t, h, head) + {h};
      }
    } else {
      assert PrunedHeights(t, h + 1) == PrunedHeights(t, h);
      assert Doomed(t, h + 1, head) == Doomed(t, h, head);
      assert DeletedHeights(t, h + 1, head) == DeletedHeights(t, h, head);
    }
  }

  lemma AppendRefines(db: Database, t: Tables, accounts: map<Bytes, Account>, a: Bytes, tx: Bytes, count: nat)
    requires Refines(db, t, accounts) && count == |GetOr(Find(t.history, a), [])|
    ensures Refines(db[Encode(HistoryKey(a, count)) := HashValue(tx)][Encode(HistoryCountKey(a)) := CountValue(count + 1)],
                    t.(history := Append(t.history, a, tx)), accounts)
  {
    var item, total := HistoryKey(a, count), HistoryCountKey(a);
    var db' := db[Encode(item) := HashValue(tx)][Encode(total) := CountValue(count + 1)];
    var t' := t.(history := Append(t.history, a, tx));
    forall m: Key ensures Find(db', Encode(m)) == Entry(t', accounts, m) {
      assert Find(db, Encode(m)) == Entry(t, accounts, m);
      AppendedContent(t, accounts, a, tx, m);
      if Encode(m) == Encode(item) { EncodeInjective(m, item); }
      if Encode(m) == Encode(total) { EncodeInjective(m, total); }
      hide Encode, Entry;
    }
  }

  lemma AppendedContent(t: Tables, accounts: map<Bytes, Account>, a: Bytes, tx: Bytes, m: Key)
    ensures Entry(t.(history := Append(t.history, a, tx)), accounts, m)
         == if m == HistoryKey(a, |GetOr(Find(t.history, a), [])|) then Some(HashValue(tx))
            else if m == HistoryCountKey(a) then Some(CountValue(|GetOr(Find(t.history, a), [])| + 1))
            else Entry(t, accounts, m)
  {
  }

  // ---------------------------------------------------------------------------------------
  // The scan
  // ---------------------------------------------------------------------------------------

  /** The least key: what the ordered iterator yields next. */
  method Least(keys: set<Bytes>) returns (least: Bytes)
    requires keys != {}
    ensures least in keys && forall k :: k in keys ==> !LexLess(k, least)
  {
    least :| least in keys;
    var rest := keys - {least};
    LexTotal(least, least);
    while rest != {}
      invariant rest <= keys && least in keys
      invariant forall k :: k in keys - rest ==> !LexLess(k, least)
      decreases |rest|
    {
      var k :| k in rest;
      if LexLess(k, least) {
        forall m | m in keys - rest ensures !LexLess(m, k) {
          if LexLess(m, k) { LexTransitive(m, k, least); }
        }
        least := k;
        LexTotal(k, k);
      }
      rest := rest - {k};
    }
  }

  /** When the least remaining key does not start with the prefix, none does. */
  lemma NoneAfter(rest: set<Bytes>, key: Bytes)
    requires key in rest && !LexLess(key, ACCOUNT) && !(ACCOUNT <= key)
    requires forall k :: k in rest ==> !LexLess(k, key)
    ensures forall k :: k in rest ==> !(ACCOUNT <= k)
  {
    forall k | k in rest ensures !(ACCOUNT <= k) {
      if ACCOUNT <= k {
        LexTotal(key, k);
        PrefixBlock(ACCOUNT, key, k);
      }
    }
  }

  lemma {:induction false} LexTail(p: Bytes, a: Bytes, b: Bytes)
    requires LexLess(p + a, p + b)
    ensures LexLess(a, b)
  {
    if p == [] {
      assert p + a == a && p + b == b;
    } else {
      assert (p + a)[1..] == p[1..] + a && (p + b)[1..] == p[1..] + b;
      LexTail(p[1..], a, b);
    }
  }

  /** No account key sorts below the prefix. */
  lemma AccountKeysAbove(db: Database, t: Tables, accounts: map<Bytes, Account>)
    requires Refines(db, t, accounts)
    ensures forall a :: a in accounts ==> Encode(AccountKey(a)) in db && !LexLess(Encode(AccountKey(a)), ACCOUNT)
  {
    forall a | a in accounts ensures Encode(AccountKey(a)) in db && !LexLess(Encode(AccountKey(a)), ACCOUNT) {
      EntryFound(db, t, accounts, AccountKey(a));
      PrefixNotBelow(ACCOUNT, Encode(AccountKey(a)));
    }
  }

  /** The scan so far: `list` is sorted, holds stored accounts below every key of `rest`, and has every
      key not below the prefix that is no longer in `rest`. */
  ghost predicate Scanned(db: Database, accounts: map<Bytes, Account>, list: seq<(Bytes, Account)>, rest: set<Bytes>)
  {
    && (forall k :: k in rest ==> k in db && !LexLess(k, ACCOUNT))
    && (forall i :: 0 <= i < |list| ==> list[i].0 in accounts && list[i].1 == accounts[list[i].0])
    && Covered(db, list, rest) && Ascending(list) && Below(list, rest)
  }

  ghost predicate Covered(db: Database, list: seq<(Bytes, Account)>, rest: set<Bytes>)
  {
    forall k :: k in db && !LexLess(k, ACCOUNT) && k !in rest ==> ACCOUNT <= k && AddressOf(k) in Addresses(list)
  }

  lemma CoveredStep(db: Database, list: seq<(Bytes, Account)>, rest: set<Bytes>, key: Bytes, account: Account)
    requires Covered(db, list, rest) && ACCOUNT <= key
    ensures Covered(db, list + [(AddressOf(key), account)], rest - {key})
  {
    assert Addresses(list + [(AddressOf(key), account)]) == Addresses(list) + [AddressOf(key)];
    hide LexLess;
  }

  ghost predicate Ascending(list: seq<(Bytes, Account)>)
  {
    forall i, j :: 0 <= i < j < |list| ==> LexLess(list[i].0, list[j].0)
  }

  lemma AscendingStep(list: seq<(Bytes, Account)>, address: Bytes, account: Account)
    requires Ascending(list) && forall i :: 0 <= i < |list| ==> LexLess(list[i].0, address)
    ensures Ascending(list + [(address, account)])
  {
    hide LexLess;
  }

  ghost predicate Below(list: seq<(Bytes, Account)>, rest: set<Bytes>)
  {
    forall i, k :: 0 <= i < |list| && k in rest ==> LexLess(ACCOUNT + list[i].0, k)
  }

  lemma BelowStep(list: seq<(Bytes, Account)>, rest: set<Bytes>, key: Bytes, account: Account)
    requires Below(list, rest) && key in rest && ACCOUNT <= key && forall k :: k in rest ==> !LexLess(k, key)
    ensures Below(list + [(AddressOf(key), account)], rest - {key})
    ensures forall i :: 0 <= i < |list| ==> LexLess(list[i].0, AddressOf(key))
  {
    var address := AddressOf(key);
    assert key == ACCOUNT + address;
    hide LexLess;
    forall k | k in rest - {key} ensures LexLess(key, k) { LexTotal(key, k); }
    forall i | 0 <= i < |list| ensures LexLess(list[i].0, address) { LexTail(ACCOUNT, list[i].0, address); }
  }

  lemma ScanStep(db: Database, t: Tables, accounts: map<Bytes, Account>, list: seq<(Bytes, Account)>,
        rest: set<Bytes>, key: Bytes)
    requires Refines(db, t, accounts) && Scanned(db, accounts, list, rest)
    requires key in rest && ACCOUNT <= key && forall k :: k in rest ==> !LexLess(k, key)
    ensures key in db && db[key].AccountValue?
    ensures Scanned(db, accounts, list + [(AddressOf(key), db[key].account)], rest - {key})
  {
    var address := AddressOf(key);
    assert key == ACCOUNT + address;
    KeyHoldsAccount(db, t, accounts, address);
    BelowStep(list, rest, key, db[key].account);
    CoveredStep(db, list, rest, key, db[key].account);
    AscendingStep(list, address, db[key].account);
    hide Encode, LexLess, Refines, Below, Covered, Ascending;
  }

  lemma KeyHoldsAccount(db: Database, t: Tables, accounts: map<Bytes, Account>, a: Bytes)
    requires Refines(db, t, accounts) && ACCOUNT + a in db
    ensures a in accounts && db[ACCOUNT + a] == AccountValue(accounts[a])
  {
    EntryFound(db, t, accounts, AccountKey(a));
  }

  lemma ScanIsComplete(db: Database, t: Tables, accounts: map<Bytes, Account>, list: seq<(Bytes, Account)>,
        rest: set<Bytes>)
    requires Refines(db, t, accounts) && Scanned(db, accounts, list, rest)
    requires forall k :: k in rest ==> !(ACCOUNT <= k)
    ensures IsOrdering(Addresses(list), accounts.Keys)
  {
    AccountKeysAbove(db, t, accounts);
    hide LexLess, Refines, Encode;
    forall a | a in accounts.Keys ensures a in Addresses(list) {
      AccountKeyText(a);
    }
    forall a | a in Addresses(list) ensures a in accounts.Keys {
      var i :| 0 <= i < |list| && Addresses(list)[i] == a;
    }
    forall i, j | 0 <= i < j < |list| ensures Addresses(list)[i] != Addresses(list)[j] {
      LexTotal(list[i].0, list[j].0);
    }
  }

  lemma AccountKeyText(a: Bytes)
    ensures ACCOUNT <= Encode(AccountKey(a)) && AddressOf(Encode(AccountKey(a))) == a
  {
  }
}
