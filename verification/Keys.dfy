/** Who may spend: the key of an account is the last one its owner set, and every executed transfer and withdrawal
    carries its signature. */
module Keys {
  import opened Types
  import opened Ledger
  import opened LedgerRuns
  import opened Nonces

  /** The key of an address; one without an account has none. */
  function KeyOf(s: State, address: Address): PubKeyHash {
    if address in s.index && s.index[address] in s.accounts then s.accounts[s.index[address]].pubKeyHash else NO_PUB_KEY
  }

  predicate SetsKey(item: Item, address: Address) {
    item.Transaction? && item.tx.ChangePubKeyTx? && item.tx.change.account == address
  }

  /** The key set last, or the one there was. */
  function LastKey(done: seq<Effect>, address: Address, first: PubKeyHash): PubKeyHash {
    if done == [] then first else
    var last := done[|done| - 1].item;
    if SetsKey(last, address) then last.tx.change.newPubKeyHash else LastKey(done[..|done| - 1], address, first)
  }

  lemma WriteKey(s: State, id: AccountId, account: Account, address: Address)
    requires Inv(s) && id <= |s.accounts|
    requires if id in s.accounts then account.address == s.accounts[id].address else account.address !in s.index
    ensures KeyOf(Insert(s, id, account), address) ==
            if address == account.address then account.pubKeyHash else KeyOf(s, address)
  {
  }

  lemma OwnKey(s: State, address: Address)
    requires Inv(s)
    ensures address in s.index ==>
              s.index[address] in s.accounts && KeyOf(s, address) == s.accounts[s.index[address]].pubKeyHash
    ensures address !in s.index ==> KeyOf(s, address) == NO_PUB_KEY
  {
  }

  lemma TransferKeepsKeys(s: State, t: Transfer, address: Address)
    requires Inv(s) && ExecuteTransfer(s, t).Done?
    ensures KeyOf(ExecuteTransfer(s, t).value.state, address) == KeyOf(s, address)
  {
    hide Inv, ExecuteTransfer, Extends, KeyOf;
    TransferShape(s, t);
    var from, to := s.index[t.from], Slot(s, t.to);
    var account := s.accounts[from];
    DenseSlot(s, from);
    OwnKey(s, t.from);
    OwnKey(s, t.to);
    if t.to == t.from {
      WriteKey(s, from, account.(nonce := account.nonce + 1), address);
    } else {
      var paid := Insert(s, from, Spent(account, t.token));
      WriteKey(s, from, Spent(account, t.token), address);
      WriteKeepsInv(s, from, Spent(account, t.token));
      var target := if t.to in s.index then s.accounts[to] else NewAccount(t.to);
      DenseSlot(paid, to);
      WriteKey(paid, to, WithToken(target, t.token), address);
    }
  }

  /** Only a key change of an address moves its key, and to the key it names. */
  lemma ExecuteSetsKey(s: State, item: Item, address: Address)
    requires Inv(s) && Execute(s, item).Done?
    ensures KeyOf(Execute(s, item).value.state, address) ==
            if SetsKey(item, address) then item.tx.change.newPubKeyHash else KeyOf(s, address)
  {
    hide Inv, ExecuteDeposit, ExecuteTransfer, ExecuteWithdraw, ExecuteChangePubKey, Extends, KeyOf;
    match item
    case Priority(PriorityOp(_, DepositRequest(d))) =>
      DepositShape(s, d);
      var id := Slot(s, d.to);
      DenseSlot(s, id);
      OwnKey(s, d.to);
      WriteKey(s, id, WithToken(if d.to in s.index then s.accounts[id] else NewAccount(d.to), d.token), address);
    case Priority(PriorityOp(_, FullExitRequest(e))) =>
      var account := s.accounts[e.accountId];
      DenseSlot(s, e.accountId);
      OwnAccount(s, e.accountId);
      OwnKey(s, account.address);
      WriteKey(s, e.accountId, account.(tokens := {}), address);
    case Transaction(TransferTx(t)) => TransferKeepsKeys(s, t, address);
    case Transaction(WithdrawTx(w)) =>
      WithdrawShape(s, w);
      DenseSlot(s, s.index[w.from]);
      OwnKey(s, w.from);
      WriteKey(s, s.index[w.from], Spent(s.accounts[s.index[w.from]], w.token), address);
    case Transaction(ChangePubKeyTx(p)) =>
      ChangePubKeyShape(s, p);
      DenseSlot(s, s.index[p.account]);
      var account := s.accounts[s.index[p.account]];
      WriteKey(s, s.index[p.account], account.(nonce := account.nonce + 1, pubKeyHash := p.newPubKeyHash), address);
  }

  lemma OwnAccount(s: State, id: AccountId)
    requires Inv(s) && id in s.accounts
    ensures s.accounts[id].address in s.index && s.index[s.accounts[id].address] == id
  {
  }

  /** After any run the key of an address is the one its last executed key change named; an address that had no account
      and never changed its key has none. */
  lemma {:induction false} KeyIsLastSet(s: State, items: seq<Item>, address: Address)
    requires Inv(s)
    ensures KeyOf(RunAll(s, items).state, address) == LastKey(RunAll(s, items).done, address, KeyOf(s, address))
  {
    if items != [] {
      hide Inv, Extends, Execute, KeyOf;
      var init, last := items[..|items| - 1], items[|items| - 1];
      var before := RunAll(s, init);
      KeyIsLastSet(s, init, address);
      RunKeepsInv(s, init);
      if !before.halted && Execute(before.state, last).Done? {
        ExecuteSetsKey(before.state, last, address);
        assert RunAll(s, items).done[..|before.done|] == before.done;
      }
    }
  }

  /** What a transaction that spends a token carries as its signer. */
  predicate Spends(item: Item) {
    item.Transaction? && (item.tx.TransferTx? || item.tx.WithdrawTx?)
  }

  function SignerOf(item: Item): Option<PubKeyHash>
    requires Spends(item)
  {
    if item.tx.TransferTx? then item.tx.transfer.signer else item.tx.withdraw.signer
  }

  lemma SignedByHolder(s: State, item: Item)
    requires Inv(s) && Permitted(s, item) && Spends(item)
    ensures KeyOf(s, item.tx.Sender()) != NO_PUB_KEY && SignerOf(item) == Some(KeyOf(s, item.tx.Sender()))
  {
    OwnKey(s, item.tx.Sender());
  }

  /** Every executed transfer and withdrawal was signed with a key, namely the one its sender had set last before it:
      so an address without a key spends nothing until it sets one. */
  lemma SignedByLastKey(s: State, items: seq<Item>, i: nat)
    requires Inv(s) && i < |RunAll(s, items).done| && Spends(RunAll(s, items).done[i].item)
    ensures var done := RunAll(s, items).done;
            var from := done[i].item.tx.Sender();
            var key := LastKey(done[..i], from, KeyOf(s, from));
            key != NO_PUB_KEY && SignerOf(done[i].item) == Some(key)
  {
    hide Inv, Extends, RunAll, Permitted, Exhausted, KeyOf;
    var item := RunAll(s, items).done[i].item;
    ExecutedWasPermitted(s, items, i);
    var k: nat :| Met(s, items, i, k, item);
    RunKeepsInv(s, items[..k]);
    SignedByHolder(RunAll(s, items[..k]).state, item);
    KeyIsLastSet(s, items[..k], item.tx.Sender());
    DonePrefix(s, items, k);
    assert RunAll(s, items).done[..i] == RunAll(s, items[..k]).done;
  }

  lemma {:induction false} DonePrefix(s: State, items: seq<Item>, k: nat)
    requires k <= |items|
    ensures RunAll(s, items[..k]).done <= RunAll(s, items).done
  {
    if k == |items| {
      assert items[..k] == items;
    } else {
      hide RunAll;
      var n := |items| - 1;
      assert items[..n][..k] == items[..k];
      DonePrefix(s, items[..n], k);
      DoneGrows(s, items);
    }
  }

  lemma DoneGrows(s: State, items: seq<Item>)
    requires items != []
    ensures RunAll(s, items[..|items| - 1]).done <= RunAll(s, items).done
  {
    hide Execute;
  }
}
