/** The ledger as the program keeps it: stored accounts under an overlay, registries, and the trie. */
module LedgerState {
  import opened Base
  import opened TrieModel
  import opened TrieContent
  import opened Trie
  import opened Ledger
  import opened Node
  import opened Storage
  import L = Ledger

  /** No insertion of accounts under some of the keys, each once and in any order, indexes out of range. */
  ghost predicate NeverPanics(root: Root<Account>, keys: set<Bytes>)
  {
    && ShapedRoot(root)
    && forall entries: seq<(Bytes, Account)> :: Part(Addresses(entries), keys) ==> CanInsertAll(root, entries)
  }

  /** `order` lists some keys of the set, none twice. */
  ghost predicate Part(order: seq<Bytes>, keys: set<Bytes>)
  {
    && (forall k :: k in order ==> k in keys)
    && (forall i, j :: 0 <= i < j < |order| ==> order[i] != order[j])
  }

  lemma EntriesAppend(order: seq<Bytes>, k: Bytes, overlay: map<Bytes, Account>)
    requires k in overlay && forall j :: j in order ==> j in overlay
    ensures Entries(order + [k], overlay) == Entries(order, overlay) + [(k, overlay[k])]
  {
  }

  /** With addresses of one length no commit panics, siblings or not. */
  lemma UniformNeverPanics(root: Root<Account>, content: Content<Account>, keys: set<Bytes>, length: nat)
    requires Represents(root, content, length) && forall k :: k in keys ==> |k| == length
    ensures NeverPanics(root, keys)
  {
    forall entries: seq<(Bytes, Account)> | Part(Addresses(entries), keys) ensures CanInsertAll(root, entries) {
      assert forall i :: 0 <= i < |entries| ==> entries[i].0 == Addresses(entries)[i];
      InsertAllRepresents(root, content, entries, length);
    }
  }

  class State {
    const storage: Store
    const trie: MerklePatriciaTrie<Account>
    var pending: map<Bytes, Account>
    var assets: map<Bytes, Asset>
    var collections: map<Bytes, Collection>
    var channels: map<Bytes, Channel>

    ghost predicate Valid()
      reads this, storage, trie
    {
      storage.Valid() && trie.Valid()
    }

    /** What every reader sees: the overlay over the stored accounts. */
    ghost function View(): (l: Ledger)
      reads this, storage
      ensures l.assets == assets && l.collections == collections && l.channels == channels
    {
      Ledger(storage.accounts + pending, assets, collections, channels)
    }

    /** The trie is rebuilt from the stored accounts. */
    constructor (storage: Store)
      requires storage.Valid() && NeverPanics(None, storage.accounts.Keys)
      ensures Valid() && fresh(trie) && this.storage == storage
      ensures pending == map[] && assets == map[] && collections == map[] && channels == map[]
      ensures Commits(None, map[], storage.accounts, trie.root)
    {
      this.storage := storage;
      trie := new MerklePatriciaTrie<Account>();
      pending, assets, collections, channels := map[], map[], map[], map[];
      new;
      var list := storage.GetAllAccounts();
      Rebuild(trie, list, storage.accounts);
    }

    method GetAccount(a: Bytes) returns (account: Option<Account>)
      requires Valid()
      ensures account == L.GetAccount(View(), a)
    {
      if a in pending { return Some(pending[a]); }
      account := storage.GetAccount(a);
    }

    method GetBalance(a: Bytes) returns (balance: U64)
      requires Valid()
      ensures balance == BalanceOf(View(), a)
    {
      var account := GetAccount(a);
      balance := if account.Some? then account.value.balance else 0;
    }

    method GetNonce(a: Bytes) returns (nonce: U64)
      requires Valid()
      ensures nonce == NonceOf(View(), a)
    {
      var account := GetAccount(a);
      nonce := if account.Some? then account.value.nonce else 0;
    }

    /** A write goes to the overlay; the store is not touched. */
    method Write(a: Bytes, account: Account)
      requires Valid()
      modifies this
      ensures Valid() && View() == PutAccount(old(View()), a, account)
      ensures pending == old(pending)[a := account]
    {
      pending := pending[a := account];
      assert storage.accounts + pending == (storage.accounts + old(pending))[a := account];
    }

    method SetBalance(a: Bytes, balance: U64)
      requires Valid()
      modifies this
      ensures Valid() && View() == PutAccount(old(View()), a, Current(old(View()), a).(balance := balance))
      ensures pending.Keys == old(pending).Keys + {a}
    {
      var account := GetAccount(a);
      Write(a, GetOr(account, FRESH_ACCOUNT).(balance := balance));
    }

    method TransferNative(from: Bytes, to: Bytes, amount: U64) returns (error: Option<Error>)
      requires Valid()
      modifies this
      ensures Valid() && Outcome(error, View()) == L.TransferNative(old(View()), from, to, amount)
      ensures error.None? <==>
        from != to && from in old(View()).accounts && amount <= BalanceOf(old(View()), from)
      ensures error.None? ==>
        && BalanceOf(View(), from) + amount == BalanceOf(old(View()), from)
        && BalanceOf(View(), to) == (BalanceOf(old(View()), to) + amount) % TWO_TO_THE_64
        && forall a :: a !in {from, to} ==> Find(View().accounts, a) == Find(old(View()).accounts, a)
      ensures error.None? ==> pending.Keys == old(pending).Keys + {from, to}
    {
      hide View, Valid;
      if from == to { return Some(SelfTransfer); }
      var source := GetAccount(from);
      if source.None? { return Some(AccountNotFound); }
      if source.value.balance < amount { return Some(InsufficientFunds); }
      Write(from, source.value.(balance := source.value.balance - amount));
      var found := GetAccount(to);
      var target := GetOr(found, FRESH_ACCOUNT);
      Write(to, target.(balance := Add64(target.balance, amount)));
      error := None;
    }

    method CreateAsset(id: Bytes, asset: Asset) returns (error: Option<Error>)
      requires Valid()
      modifies this
      ensures Valid() && Outcome(error, View()) == MakeAsset(old(View()), id, asset)
      ensures error.None? ==> pending.Keys == old(pending).Keys + {asset.issuer}
    {
      if id in assets { return Some(AlreadyExists); }
      var found := GetAccount(asset.issuer);
      Write(asset.issuer, WithHolding(GetOr(found, FRESH_ACCOUNT), id, asset.totalSupply));
      assets := assets[id := asset];
      error := None;
    }

    method TransferAsset(from: Bytes, to: Bytes, id: Bytes, amount: U64) returns (error: Option<Error>)
      requires Valid()
      modifies this
      ensures Valid() && Outcome(error, View()) == MoveAsset(old(View()), from, to, id, amount)
      ensures error.None? ==> pending.Keys == old(pending).Keys + {from, to}
    {
      hide View, Valid;
      if id !in assets { return Some(NotFound); }
      var source := GetAccount(from);
      if source.None? { return Some(AccountNotFound); }
      var held := HoldingOf(source.value, id);
      if held < amount { return Some(InsufficientFunds); }
      Write(from, WithHolding(source.value, id, held - amount));
      var found := GetAccount(to);
      var target := GetOr(found, FRESH_ACCOUNT);
      Write(to, WithHolding(target, id, Add64(HoldingOf(target, id), amount)));
      error := None;
    }

    method CreateCollection(id: Bytes, collection: Collection) returns (error: Option<Error>)
      requires Valid()
      modifies this
      ensures Valid() && Outcome(error, View()) == MakeCollection(old(View()), id, collection)
      ensures pending == old(pending)
    {
      if id in collections { return Some(AlreadyExists); }
      collections := collections[id := collection];
      error := None;
    }

    method MintNft(sender: Bytes, c: Bytes, item: U64, metadata: Bytes, recipient: Bytes) returns (error: Option<Error>)
      requires Valid()
      modifies this
      ensures Valid() && Outcome(error, View()) == Mint(old(View()), sender, c, item, metadata, recipient)
      ensures error.None? ==> pending.Keys == old(pending).Keys + {recipient}
    {
      if c !in collections { return Some(NotFound); }
      var collection := collections[c];
      if collection.issuer != sender { return Some(NotIssuer); }
      if item in collection.items { return Some(AlreadyExists); }
      collections := collections[c := collection.(items := collection.items[item := NftItem(item, recipient, metadata)])];
      var found := GetAccount(recipient);
      Write(recipient, Listed(GetOr(found, FRESH_ACCOUNT), c, item));
      error := None;
    }

    method TransferNft(from: Bytes, to: Bytes, c: Bytes, item: U64) returns (error: Option<Error>)
      requires Valid()
      modifies this
      ensures Valid() && Outcome(error, View()) == MoveNft(old(View()), from, to, c, item)
      ensures error.None? ==> pending.Keys == old(pending).Keys + {from, to}
    {
      hide Refines, Closed;
      if c !in collections { return Some(NotFound); }
      var collection := collections[c];
      if item !in collection.items { return Some(NotFound); }
      if collection.items[item].owner != from { return Some(NotOwner); }
      collections := collections[c := collection.(items := collection.items[item := collection.items[item].(owner := to)])];
      var source := GetAccount(from);
      if source.None? { return Some(AccountNotFound); }
      Write(from, Unlisted(source.value, c, item));
      var found := GetAccount(to);
      Write(to, Listed(GetOr(found, FRESH_ACCOUNT), c, item));
      error := None;
    }

    method OpenChannel(channel: Channel) returns (error: Option<Error>)
      requires Valid()
      modifies this
      ensures Valid() && Outcome(error, View()) == Open(old(View()), channel)
      ensures error.None? ==> pending.Keys == old(pending).Keys + {channel.partnerA}
    {
      hide Refines, Closed;
      var source := GetAccount(channel.partnerA);
      if source.None? { return Some(AccountNotFound); }
      if source.value.balance < channel.totalDeposit { return Some(InsufficientFunds); }
      Write(channel.partnerA, source.value.(balance := source.value.balance - channel.totalDeposit));
      if channel.id in channels { return Some(AlreadyExists); }
      channels := channels[channel.id := channel];
      error := None;
    }

    method Deposit(a: Bytes, amount: U64)
      requires Valid()
      modifies this
      ensures Valid() && View() == Credit(old(View()), a, amount)
      ensures pending.Keys == old(pending).Keys + {a}
    {
      var found := GetAccount(a);
      var account := GetOr(found, FRESH_ACCOUNT);
      Write(a, account.(balance := Add64(account.balance, amount)));
    }

    method CloseChannel(sender: Bytes, id: Bytes, finalA: U64, finalB: U64) returns (error: Option<Error>)
      requires Valid()
      modifies this
      ensures Valid() && Outcome(error, View()) == Close(old(View()), sender, id, finalA, finalB)
      ensures error.None? ==> id in old(channels)
      ensures error.None? ==> pending.Keys == old(pending).Keys + {old(channels)[id].partnerA, old(channels)[id].partnerB}
    {
      if id !in channels { return Some(NotFound); }
      var channel := channels[id];
      if channel.isClosed { return Some(ChannelClosed); }
      if sender != channel.partnerA && sender != channel.partnerB { return Some(NotAuthorized); }
      channels := channels[id := channel.(isClosed := true)];
      if Add64(finalA, finalB) != channel.totalDeposit { return Some(BalanceMismatch); }
      Deposit(channel.partnerA, finalA);
      Deposit(channel.partnerB, finalB);
      error := None;
    }

    method DelegateSpend(owner: Bytes, delegate: Bytes, allowance: U64)
      requires Valid()
      modifies this
      ensures Valid() && Done(View()) == Delegate(old(View()), owner, delegate, allowance)
      ensures pending.Keys == old(pending).Keys + {owner}
    {
      var found := GetAccount(owner);
      var account := GetOr(found, FRESH_ACCOUNT);
      Write(owner, account.(allowance := account.allowance[delegate := allowance]));
    }

    method Stake(a: Bytes, stake: U64) returns (error: Option<Error>)
      requires Valid()
      modifies this
      ensures Valid() && Outcome(error, View()) == DeductStake(old(View()), a, stake)
      ensures error.None? ==> pending.Keys == old(pending).Keys + {a}
    {
      var account := GetAccount(a);
      if account.None? { return Some(AccountNotFound); }
      if account.value.balance < stake { return Some(InsufficientFunds); }
      Write(a, account.value.(balance := account.value.balance - stake));
      error := None;
    }

    method BumpNonce(a: Bytes)
      requires Valid()
      modifies this
      ensures Valid() && View() == IncrementNonce(old(View()), a)
      ensures pending.Keys == old(pending).Keys + {a}
    {
      var found := GetAccount(a);
      var account := GetOr(found, FRESH_ACCOUNT);
      Write(a, account.(nonce := Add64(account.nonce, 1)));
    }

    /** The overlay refines direct execution: readers see exactly the model's outcome, the store is
        untouched, and a success writes exactly the accounts the transaction names. */
    method ApplyTransaction(id: IdHash, tx: Transaction) returns (error: Option<Error>)
      requires Valid()
      modifies this
      ensures Valid() && Outcome(error, View()) == Apply(id, old(View()), tx)
      ensures error.None? ==> pending.Keys == old(pending).Keys + Touched(old(View()), tx)
    {
      hide View, Valid;
      var nonce := GetNonce(tx.sender);
      if tx.nonce != nonce { return Some(InvalidNonce); }
      error := ExecuteData(id, tx);
      if error.Some? { return; }
      BumpNonce(tx.sender);
    }

    method ExecuteData(id: IdHash, tx: Transaction) returns (error: Option<Error>)
      requires Valid()
      modifies this
      ensures Valid() && Outcome(error, View()) == Execute(id, old(View()), tx)
      ensures error.None? ==> pending.Keys + {tx.sender} == old(pending).Keys + Touched(old(View()), tx)
    {
      hide View, Valid, L.TransferNative, MakeAsset, MoveAsset, MakeCollection, Mint, MoveNft, Open, Close, DeductStake;
      error := None;
      match tx.data {
        case NativeTransfer(amount) =>
          error := TransferNative(tx.sender, tx.receiver, amount);
        case CreateAsset(name, symbol, supply, decimals, metadata) =>
          var assetId := id(tx.sender, tx.nonce, name);
          error := CreateAsset(assetId, Asset(assetId, tx.sender, name, symbol, supply, decimals, metadata));
        case TransferAsset(assetId, amount) =>
          error := TransferAsset(tx.sender, tx.receiver, assetId, amount);
        case CreateCollection(name, symbol, metadata) =>
          var c := id(tx.sender, tx.nonce, name);
          error := CreateCollection(c, Collection(c, tx.sender, name, symbol, metadata, map[]));
        case MintNft(c, item, metadata, recipient) =>
          error := MintNft(tx.sender, c, item, metadata, recipient);
        case TransferNft(c, item) =>
          error := TransferNft(tx.sender, tx.receiver, c, item);
        case OpenChannel(partner, amount, duration) =>
          error := OpenChannel(Channel(id(tx.sender, tx.nonce, CHANNEL_NAME), tx.sender, partner, amount, duration, false));
        case CloseChannel(c, _, finalA, finalB) =>
          error := CloseChannel(tx.sender, c, finalA, finalB);
        case DelegateSpend(delegate, allowance, _) =>
          DelegateSpend(tx.sender, delegate, allowance);
        case RegisterValidator(stake) =>
          error := Stake(tx.sender, stake);
        case UnregisterValidator =>
          var account := GetAccount(tx.sender);
          if account.None? { error := Some(AccountNotFound); }
      }
    }

    method DiscardChanges()
      requires Valid()
      modifies this
      ensures Valid() && View() == old(View()).(accounts := storage.accounts) && pending == map[]
    {
      pending := map[];
      assert storage.accounts + map[] == storage.accounts;
    }

    /** The overlay is written to the store and the trie in whatever order the map iterates. */
    method ApplyChanges()
      requires Valid() && NeverPanics(trie.root, pending.Keys)
      modifies this, storage, trie
      ensures Valid() && storage.tables == old(storage.tables)
      ensures storage.accounts == old(View()).accounts && pending == map[]
      ensures assets == old(assets) && collections == old(collections) && channels == old(channels)
      ensures Commits(old(trie.root), old(storage.accounts), storage.accounts, trie.root)
    {
      hide Refines, Closed, NeverPanics, Progress, Commits;
      ghost var root0, accounts0, overlay := trie.root, storage.accounts, pending;
      ghost var order: seq<Bytes> := [];
      var rest := pending;
      NoProgress(root0, accounts0, overlay);
      while rest != map[]
        invariant Valid() && storage.tables == old(storage.tables)
        invariant pending == overlay && assets == old(assets) && collections == old(collections) && channels == old(channels)
        invariant Progress(root0, accounts0, overlay, order, rest, storage.accounts, trie.root)
        decreases |rest|
      {
        var k :| k in rest;
        StepProgress(root0, accounts0, overlay, order, rest, storage.accounts, trie.root, k);
        storage.StoreAccount(k, rest[k]);
        trie.Insert(k, rest[k]);
        order := order + [k];
        rest := rest - {k};
      }
      FullProgress(root0, accounts0, overlay, order, storage.accounts, trie.root);
      pending := map[];
    }
  }

  /** The rebuilding loop of `State::new`. */
  method Rebuild(trie: MerklePatriciaTrie<Account>, list: seq<(Bytes, Account)>, ghost accounts: map<Bytes, Account>)
    requires trie.Valid() && trie.root == None && NeverPanics(None, accounts.Keys)
    requires IsOrdering(Addresses(list), accounts.Keys)
    requires forall i :: 0 <= i < |list| ==> list[i].0 in accounts && list[i].1 == accounts[list[i].0]
    modifies trie
    ensures trie.Valid() && Commits(None, map[], accounts, trie.root)
  {
    hide Represents, Fits, Nibbles;
    ghost var order := Addresses(list);
    for i := 0 to |list|
      invariant trie.Valid() && Part(order[..i], accounts.Keys)
      invariant CanInsertAll(None, Entries(order[..i], accounts))
      invariant trie.root == InsertAll(None, Entries(order[..i], accounts))
    {
      assert order[..i + 1] == order[..i] + [list[i].0] && list[i].0 == order[i];
      StepOrder(None, map[], accounts, order[..i], list[i].0);
      trie.Insert(list[i].0, list[i].1);
    }
    assert order[..|list|] == order;
    assert CommitsVia(None, accounts, order, trie.root);
    assert map[] + accounts == accounts;
  }

  lemma StepOrder(root: Root<Account>, accounts: map<Bytes, Account>, overlay: map<Bytes, Account>, order: seq<Bytes>,
        k: Bytes)
    requires NeverPanics(root, overlay.Keys) && Part(order, overlay.Keys) && k in overlay && k !in order
    requires CanInsertAll(root, Entries(order, overlay))
    ensures Part(order + [k], overlay.Keys) && CanInsertAll(root, Entries(order + [k], overlay))
    ensures Fits(InsertAll(root, Entries(order, overlay)), Nibbles(k))
    ensures InsertAll(root, Entries(order + [k], overlay)) == Some(Inserted(InsertAll(root, Entries(order, overlay)), Nibbles(k), overlay[k]))
    ensures (overlay - set j | j in order) - {k} == overlay - set j | j in order + [k]
    ensures (accounts + map j | j in order :: overlay[j])[k := overlay[k]] == accounts + map j | j in order + [k] :: overlay[j]
  {
    assert Part(order + [k], overlay.Keys);
    assert Addresses(Entries(order + [k], overlay)) == order + [k];
    EntriesAppend(order, k, overlay);
    InsertLast(root, Entries(order, overlay), k, overlay[k]);
  }

  /** The loop of `apply_changes` has written the accounts of `order` and has those of `rest` to go. */
  ghost predicate Progress(root0: Root<Account>, accounts0: map<Bytes, Account>, overlay: map<Bytes, Account>,
        order: seq<Bytes>, rest: map<Bytes, Account>, accounts: map<Bytes, Account>, root: Root<Account>)
  {
    && ShapedRoot(root0) && Part(order, overlay.Keys)
    && rest == overlay - (set k | k in order)
    && accounts == accounts0 + (map k | k in order :: overlay[k])
    && CanInsertAll(root0, Entries(order, overlay)) && root == InsertAll(root0, Entries(order, overlay))
  }

  lemma NoProgress(root: Root<Account>, accounts: map<Bytes, Account>, overlay: map<Bytes, Account>)
    requires NeverPanics(root, overlay.Keys)
    ensures Progress(root, accounts, overlay, [], overlay, accounts, root)
  {
    assert accounts + map[] == accounts;
    assert overlay - {} == overlay;
  }

  lemma StepProgress(root0: Root<Account>, accounts0: map<Bytes, Account>, overlay: map<Bytes, Account>,
        order: seq<Bytes>, rest: map<Bytes, Account>, accounts: map<Bytes, Account>, root: Root<Account>, k: Bytes)
    requires NeverPanics(root0, overlay.Keys) && Progress(root0, accounts0, overlay, order, rest, accounts, root) && k in rest
    ensures ShapedRoot(root) && Fits(root, Nibbles(k))
    ensures Progress(root0, accounts0, overlay, order + [k], rest - {k}, accounts[k := rest[k]], Some(Inserted(root, Nibbles(k), rest[k])))
  {
    hide NeverPanics, Fits, Nibbles;
    StepOrder(root0, accounts0, overlay, order, k);
  }

  lemma FullProgress(root0: Root<Account>, accounts0: map<Bytes, Account>, overlay: map<Bytes, Account>,
        order: seq<Bytes>, accounts: map<Bytes, Account>, root: Root<Account>)
    requires Progress(root0, accounts0, overlay, order, map[], accounts, root)
    ensures accounts == accounts0 + overlay && Commits(root0, accounts0, accounts, root)
  {
    OrderIsFull(overlay, order);
    assert CommitsVia(root0, overlay, order, root);
  }

  lemma OrderIsFull(overlay: map<Bytes, Account>, order: seq<Bytes>)
    requires Part(order, overlay.Keys) && overlay - (set k | k in order) == map[]
    ensures IsOrdering(order, overlay.Keys) && (map k | k in order :: overlay[k]) == overlay
  {
    var rest := overlay - set j | j in order;
    assert forall k :: k in overlay && k !in order ==> k in rest;
  }
}
