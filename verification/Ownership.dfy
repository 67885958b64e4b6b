/** Who holds what: an address holds a token exactly when the executed operations, read in order, say so. */
module Ownership {
  import opened Types
  import opened Ledger
  import opened LedgerRuns

  predicate Holds(s: State, address: Address, token: TokenId) {
    address in s.index && s.index[address] in s.accounts && token in s.accounts[s.index[address]].tokens
  }

  /** What an executed request says about one address and one token; `id` is the account of the address. */
  predicate HoldsNext(item: Item, id: AccountId, address: Address, token: TokenId, held: bool) {
    match item
    case Priority(PriorityOp(_, DepositRequest(d))) => held || (d.to == address && d.token == token)
    case Priority(PriorityOp(_, FullExitRequest(e))) => held && e.accountId != id
    case Transaction(TransferTx(t)) =>
      if t.token != token then held else if t.to == address then true else held && t.from != address
    case Transaction(WithdrawTx(w)) => held && !(w.token == token && w.from == address)
    case _ => held
  }

  predicate HoldsAfter(done: seq<Effect>, id: AccountId, address: Address, token: TokenId, held: bool) {
    if done == [] then held
    else HoldsNext(done[|done| - 1].item, id, address, token, HoldsAfter(done[..|done| - 1], id, address, token, held))
  }

  lemma WriteHolds(s: State, id: AccountId, account: Account, address: Address, token: TokenId)
    requires Inv(s) && id <= |s.accounts|
    requires if id in s.accounts then account.address == s.accounts[id].address else account.address !in s.index
    ensures Holds(Insert(s, id, account), address, token) ==
            if address == account.address then token in account.tokens else Holds(s, address, token)
  {
  }

  lemma AccountHolds(s: State, id: AccountId, token: TokenId)
    requires Inv(s) && (id in s.accounts || id == |s.accounts|)
    ensures id <= |s.accounts|
    ensures id in s.accounts ==>
              && s.accounts[id].address in s.index && s.index[s.accounts[id].address] == id
              && (Holds(s, s.accounts[id].address, token) <==> token in s.accounts[id].tokens)
  {
  }

  lemma StrangerHoldsNothing(s: State, address: Address, token: TokenId)
    requires address !in s.index
    ensures !Holds(s, address, token)
  {
  }

  lemma DepositHolds(s: State, d: Deposit, address: Address, token: TokenId)
    requires Inv(s) && ExecuteDeposit(s, d).Done?
    ensures Holds(ExecuteDeposit(s, d).value.state, address, token) <==>
            Holds(s, address, token) || (d.to == address && d.token == token)
  {
    hide Inv, ExecuteDeposit, Extends, Holds;
    DepositShape(s, d);
    var id := Slot(s, d.to);
    AccountHolds(s, id, token);
    if d.to !in s.index {
      StrangerHoldsNothing(s, d.to, token);
    }
    WriteHolds(s, id, WithToken(if d.to in s.index then s.accounts[id] else NewAccount(d.to), d.token), address, token);
  }

  lemma TransferHolds(s: State, t: Transfer, address: Address, token: TokenId)
    requires Inv(s) && ExecuteTransfer(s, t).Done?
    ensures Holds(ExecuteTransfer(s, t).value.state, address, token) <==>
            if t.token != token then Holds(s, address, token)
            else if t.to == address then true else Holds(s, address, token) && t.from != address
  {
    hide Inv, ExecuteTransfer, Extends, Holds;
    TransferShape(s, t);
    var from, to := s.index[t.from], Slot(s, t.to);
    var account := s.accounts[from];
    AccountHolds(s, from, token);
    if t.to == t.from {
      WriteHolds(s, from, account.(nonce := account.nonce + 1), address, token);
    } else {
      var paid := Insert(s, from, Spent(account, t.token));
      WriteHolds(s, from, Spent(account, t.token), address, token);
      WriteHolds(s, from, Spent(account, t.token), t.to, token);
      WriteKeepsInv(s, from, Spent(account, t.token));
      AccountHolds(paid, to, token);
      if t.to !in s.index {
        StrangerHoldsNothing(s, t.to, token);
      }
      var target := if t.to in s.index then s.accounts[to] else NewAccount(t.to);
      WriteHolds(paid, to, WithToken(target, t.token), address, token);
    }
  }

  lemma ExecuteMovesTokens(s: State, item: Item, id: AccountId, address: Address, token: TokenId)
    requires Inv(s) && Execute(s, item).Done? && (address in s.index ==> s.index[address] == id)
    ensures Holds(Execute(s, item).value.state, address, token) ==
            HoldsNext(item, id, address, token, Holds(s, address, token))
  {
    hide Inv, ExecuteDeposit, ExecuteTransfer, ExecuteWithdraw, ExecuteChangePubKey, Extends, Holds;
    match item
    case Priority(PriorityOp(_, DepositRequest(d))) => DepositHolds(s, d, address, token);
    case Priority(PriorityOp(_, FullExitRequest(e))) =>
      var account := s.accounts[e.accountId];
      AccountHolds(s, e.accountId, token);
      WriteHolds(s, e.accountId, account.(tokens := {}), address, token);
      if address !in s.index {
        StrangerHoldsNothing(s, address, token);
      } else {
        AddressOf(s, address);
      }
    case Transaction(TransferTx(t)) => TransferHolds(s, t, address, token);
    case Transaction(WithdrawTx(w)) =>
      WithdrawShape(s, w);
      AccountHolds(s, s.index[w.from], token);
      WriteHolds(s, s.index[w.from], Spent(s.accounts[s.index[w.from]], w.token), address, token);
    case Transaction(ChangePubKeyTx(p)) =>
      ChangePubKeyShape(s, p);
      AccountHolds(s, s.index[p.account], token);
      var account := s.accounts[s.index[p.account]];
      WriteHolds(s, s.index[p.account], account.(nonce := account.nonce + 1, pubKeyHash := p.newPubKeyHash), address,
                 token);
  }

  lemma AddressOf(s: State, address: Address)
    requires Inv(s) && address in s.index
    ensures s.index[address] in s.accounts && s.accounts[s.index[address]].address == address
  {
  }

  /** After any run an address holds a token if and only if reading the executed requests in order says so: deposits and
      transfers to it give, transfers and withdrawals from it take, and a full exit of its account takes everything. */
  lemma {:induction false} HoldingIsHistory(s: State, items: seq<Item>, id: AccountId, address: Address, token: TokenId)
    requires Inv(s)
    requires var end := RunAll(s, items).state; address in end.index ==> end.index[address] == id
    ensures Holds(RunAll(s, items).state, address, token) <==>
            HoldsAfter(RunAll(s, items).done, id, address, token, Holds(s, address, token))
  {
    if items != [] {
      hide Inv, Execute, Holds, HoldsNext;
      var init, last := items[..|items| - 1], items[|items| - 1];
      var before := RunAll(s, init);
      RunKeepsInv(s, init);
      if !before.halted && Execute(before.state, last).Done? {
        ExecuteKeepsInv(before.state, last);
        HoldingIsHistory(s, init, id, address, token);
        ExecuteMovesTokens(before.state, last, id, address, token);
        assert RunAll(s, items).done[..|before.done|] == before.done;
      } else {
        HoldingIsHistory(s, init, id, address, token);
      }
    }
  }

  // ---------- Who has an account ----------

  /** A deposit or a transfer names the address as its recipient. */
  predicate Receives(item: Item, address: Address) {
    match item
    case Priority(PriorityOp(_, DepositRequest(d))) => d.to == address
    case Transaction(TransferTx(t)) => t.to == address
    case _ => false
  }

  predicate ReceivedAny(done: seq<Effect>, address: Address) {
    exists i :: 0 <= i < |done| && Receives(done[i].item, address)
  }

  lemma ExecuteOpensAccounts(s: State, item: Item, address: Address)
    requires Inv(s) && Execute(s, item).Done?
    ensures address in Execute(s, item).value.state.index <==> address in s.index || Receives(item, address)
  {
    hide ExecuteDeposit, ExecuteTransfer, ExecuteWithdraw, ExecuteChangePubKey, Extends;
    match item
    case Priority(PriorityOp(_, DepositRequest(d))) => DepositShape(s, d);
    case Priority(PriorityOp(_, FullExitRequest(e))) =>
    case Transaction(TransferTx(t)) => TransferShape(s, t);
    case Transaction(WithdrawTx(w)) => WithdrawShape(s, w);
    case Transaction(ChangePubKeyTx(p)) => ChangePubKeyShape(s, p);
  }

  /** An address has an account after a run exactly when it had one or was sent something by an executed request. */
  lemma {:induction false} KnownIsHistory(s: State, items: seq<Item>, address: Address)
    requires Inv(s)
    ensures address in RunAll(s, items).state.index <==>
            address in s.index || ReceivedAny(RunAll(s, items).done, address)
  {
    if items == [] {
      assert RunAll(s, items).done == [];
    } else {
      hide Inv, Extends, Execute, Receives, ReceivedAny;
      var init, last := items[..|items| - 1], items[|items| - 1];
      var before := RunAll(s, init);
      KnownIsHistory(s, init, address);
      RunKeepsInv(s, init);
      if !before.halted && Execute(before.state, last).Done? {
        var e := Execute(before.state, last).value;
        ExecuteOpensAccounts(before.state, last, address);
        ReceivedMore(before.done, Effect(last, e.op, e.updates), address);
      }
    }
  }

  lemma ReceivedMore(done: seq<Effect>, e: Effect, address: Address)
    ensures ReceivedAny(done + [e], address) <==> ReceivedAny(done, address) || Receives(e.item, address)
  {
    hide Receives;
    var more := done + [e];
    assert more[|done|] == e && forall i | 0 <= i < |done| :: more[i] == done[i];
  }
}
