/** The ledger as the server holds it: a tree of accounts and an address index,
    updated in place. Every method is proved against its function in `Ledger`. */
module PlasmaStates {
  import opened Types
  import opened Ledger
  import opened LedgerRuns

  datatype OpSuccess = OpSuccess(updates: Updates, op: FranklinOp)

  /** A call on accounts named by id did what the specification says; nothing is read after an abort. */
  ghost predicate Agrees(spec: Outcome<Applied>, before: State, after: State, r: Outcome<Updates>) {
    match spec
    case Done(a) => r == Done(a.updates) && after == a.state
    case Rejected(e) => r == Rejected(e) && after == before
    case Panicked => r == Panicked
  }

  ghost predicate AgreesOp(spec: Outcome<Executed>, before: State, after: State, r: Outcome<OpSuccess>) {
    match spec
    case Done(e) => r == Done(OpSuccess(e.updates, e.op)) && after == e.state
    case Rejected(reason) => r == Rejected(reason) && after == before
    case Panicked => r == Panicked
  }

  function Named(r: Outcome<Updates>, op: FranklinOp): Outcome<OpSuccess> {
    match r
    case Done(us) => Done(OpSuccess(us, op))
    case Rejected(e) => Rejected(e)
    case Panicked => Panicked
  }

  class PlasmaState {
    var accounts: map<AccountId, Account>
    var index: map<Address, AccountId>
    var blockNumber: nat

    ghost function Contents(): State
      reads this
    {
      State(accounts, index)
    }

    constructor (state: State, currentBlock: nat)
      ensures Contents() == state && blockNumber == currentBlock
    {
      accounts, index, blockNumber := state.accounts, state.index, currentBlock;
    }

    method InsertAccount(id: AccountId, account: Account)
      modifies this`accounts, this`index
      ensures Contents() == Insert(old(Contents()), id, account)
    {
      index := index[account.address := id];
      accounts := accounts[id := account];
    }

    method RemoveAccount(id: AccountId)
      modifies this`accounts, this`index
      ensures Contents() == Remove(old(Contents()), id)
    {
      if id in accounts {
        index := index - {accounts[id].address};
        accounts := accounts - {id};
      }
    }

    method GetAccountByAddress(address: Address) returns (r: Outcome<Option<AccountId>>)
      ensures r == ByAddress(Contents(), address)
    {
      if address !in index {
        return Done(None);
      }
      var id := index[address];
      r := if id in accounts then Done(Some(id)) else Panicked;
    }

    /** With ids dense, the least id without an account; the address it is given to stays resolvable. */
    method GetFreeAccountId() returns (id: AccountId)
      ensures id == |accounts|
      ensures Inv(Contents()) ==> id !in accounts && id !in index.Values && forall j | 0 <= j < id :: j in accounts
    {
      id := |accounts|;
    }

    method ChunksForTx(tx: Tx) returns (r: Outcome<nat>)
      ensures r == if tx.TransferTx? && ByAddress(Contents(), tx.transfer.to).Panicked? then Panicked
                   else Done(TxChunks(index.Keys, tx))
    {
      match tx
      case TransferTx(t) =>
        var found := GetAccountByAddress(t.to);
        r := match found case Done(id) => Done(if id.Some? then 2 else 5) case _ => Panicked;
      case WithdrawTx(_) => r := Done(6);
      case CloseTx(_) => r := Done(1);
      case ChangePubKeyTx(_) => r := Done(6);
    }

    method ApplyDepositOp(d: Deposit, id: AccountId) returns (r: Outcome<Updates>)
      modifies this`accounts, this`index
      ensures Agrees(ApplyDeposit(old(Contents()), d, id), old(Contents()), Contents(), r)
    {
      var updates: Updates := [];
      var account;
      if id in accounts {
        account := accounts[id];
      } else {
        account := NewAccount(d.to);
        updates := updates + [(id, Create(account.address, account.nonce))];
        if id >= CAPACITY {
          return Panicked;
        }
      }
      var oldNonce := account.nonce;
      account := WithToken(account, d.token);
      InsertAccount(id, account);
      updates := updates + [(id, AddToken(oldNonce, oldNonce, d.token))];
      assert id in old(accounts) ==> updates == [] + [(id, AddToken(oldNonce, oldNonce, d.token))];
      assert id !in old(accounts) ==>
          updates == [(id, Create(d.to, 0))] + [(id, AddToken(oldNonce, oldNonce, d.token))];
      r := Done(updates);
    }

    method ApplyFullExitOp(id: AccountId) returns (r: Outcome<Updates>)
      modifies this`accounts, this`index
      ensures Agrees(ApplyFullExit(old(Contents()), id), old(Contents()), Contents(), r)
    {
      hide Ascending;
      if id !in accounts {
        return Panicked;
      }
      var account := accounts[id];
      var oldNonce := account.nonce;
      var updates: Updates := [];
      var tokens := Ascending(account.tokens);
      for i := 0 to |tokens|
        invariant account == accounts[id].(tokens := account.tokens)
        invariant forall t :: t in account.tokens <==> t in tokens[i..]
        invariant updates == ExitUpdates(id, oldNonce, tokens[..i])
      {
        var token := tokens[i];
        account := account.(tokens := account.tokens - {token});
        updates := updates + [(id, RemoveToken(oldNonce, oldNonce, token))];
      }
      assert account.tokens == {};
      assert tokens[..|tokens|] == tokens;
      InsertAccount(id, account);
      r := Done(updates);
    }

    method ApplyTransferToNewOp(t: Transfer, from: AccountId, to: AccountId) returns (r: Outcome<Updates>)
      modifies this`accounts, this`index
      ensures Agrees(ApplyTransferToNew(old(Contents()), t, from, to), old(Contents()), Contents(), r)
    {
      if to in accounts {
        return Panicked;
      }
      var toAccount := NewAccount(t.to);
      var updates: Updates := [(to, Create(toAccount.address, toAccount.nonce))];
      if from !in accounts {
        return Panicked;
      }
      var fromAccount := accounts[from];
      var fromOldNonce := fromAccount.nonce;
      if t.nonce != fromOldNonce {
        return Rejected(NonceMismatch);
      }
      if t.token !in fromAccount.tokens {
        return Rejected(NotOwner);
      }
      fromAccount := fromAccount.(tokens := fromAccount.tokens - {t.token});
      if fromOldNonce >= MAX_NONCE {
        return Panicked;
      }
      fromAccount := fromAccount.(nonce := fromAccount.nonce + 1);
      var fromNewNonce := fromAccount.nonce;
      var toNonce := toAccount.nonce;
      toAccount := WithToken(toAccount, t.token);
      InsertAccount(from, fromAccount);
      if to >= CAPACITY {
        return Panicked;
      }
      InsertAccount(to, toAccount);
      updates := updates + [(from, RemoveToken(fromOldNonce, fromNewNonce, t.token))];
      updates := updates + [(to, AddToken(toNonce, toNonce, t.token))];
      assert updates == [
        (to, Create(t.to, 0)),
        (from, RemoveToken(fromOldNonce, fromNewNonce, t.token)),
        (to, AddToken(toNonce, toNonce, t.token))];
      r := Done(updates);
    }

    method ApplyTransferOp(t: Transfer, from: AccountId, to: AccountId) returns (r: Outcome<Updates>)
      modifies this`accounts, this`index
      ensures Agrees(ApplyTransfer(old(Contents()), t, from, to), old(Contents()), Contents(), r)
    {
      if from == to {
        r := ApplyTransferOpToSelf(t, from);
        return;
      }
      if from !in accounts || to !in accounts {
        return Panicked;
      }
      var fromAccount := accounts[from];
      var toAccount := accounts[to];
      var fromOldNonce := fromAccount.nonce;
      if t.nonce != fromOldNonce {
        return Rejected(NonceMismatch);
      }
      if t.token !in fromAccount.tokens {
        return Rejected(NotOwner);
      }
      fromAccount := fromAccount.(tokens := fromAccount.tokens - {t.token});
      if fromOldNonce >= MAX_NONCE {
        return Panicked;
      }
      fromAccount := fromAccount.(nonce := fromAccount.nonce + 1);
      var fromNewNonce := fromAccount.nonce;
      var toNonce := toAccount.nonce;
      toAccount := WithToken(toAccount, t.token);
      InsertAccount(from, fromAccount);
      InsertAccount(to, toAccount);
      var updates: Updates := [(from, RemoveToken(fromOldNonce, fromNewNonce, t.token))];
      updates := updates + [(to, AddToken(toNonce, toNonce, t.token))];
      assert updates == [
        (from, RemoveToken(fromOldNonce, fromNewNonce, t.token)),
        (to, AddToken(toNonce, toNonce, t.token))];
      r := Done(updates);
    }

    method ApplyTransferOpToSelf(t: Transfer, id: AccountId) returns (r: Outcome<Updates>)
      modifies this`accounts, this`index
      ensures Agrees(ApplyTransferToSelf(old(Contents()), t, id), old(Contents()), Contents(), r)
    {
      if id !in accounts {
        return Panicked;
      }
      var account := accounts[id];
      var oldNonce := account.nonce;
      if t.nonce != oldNonce {
        return Rejected(NonceMismatch);
      }
      if t.token !in account.tokens {
        return Rejected(NotOwner);
      }
      if oldNonce >= MAX_NONCE {
        return Panicked;
      }
      account := account.(nonce := account.nonce + 1);
      InsertAccount(id, account);
      r := Done([]);
    }

    method ApplyWithdrawOp(w: Withdraw, id: AccountId) returns (r: Outcome<Updates>)
      modifies this`accounts, this`index
      ensures Agrees(ApplyWithdraw(old(Contents()), w, id), old(Contents()), Contents(), r)
    {
      if id !in accounts {
        return Panicked;
      }
      var account := accounts[id];
      var oldNonce := account.nonce;
      if w.nonce != oldNonce {
        return Rejected(NonceMismatch);
      }
      if w.token !in account.tokens {
        return Rejected(NotOwner);
      }
      account := account.(tokens := account.tokens - {w.token});
      if oldNonce >= MAX_NONCE {
        return Panicked;
      }
      account := account.(nonce := account.nonce + 1);
      InsertAccount(id, account);
      r := Done([(id, RemoveToken(oldNonce, account.nonce, w.token))]);
    }

    method ApplyChangePubKeyOp(p: ChangePubKey, id: AccountId) returns (r: Outcome<Updates>)
      modifies this`accounts, this`index
      ensures Agrees(ApplyChangePubKey(old(Contents()), p, id), old(Contents()), Contents(), r)
    {
      if id !in accounts {
        return Panicked;
      }
      var account := accounts[id];
      var oldPubKeyHash := account.pubKeyHash;
      var oldNonce := account.nonce;
      if p.nonce != account.nonce {
        return Rejected(NonceMismatch);
      }
      account := account.(pubKeyHash := p.newPubKeyHash);
      if oldNonce >= MAX_NONCE {
        return Panicked;
      }
      account := account.(nonce := account.nonce + 1);
      InsertAccount(id, account);
      r := Done([(id, ChangePubKeyHash(oldPubKeyHash, account.pubKeyHash, oldNonce, account.nonce))]);
    }

    method ApplyCloseOp(c: Close, id: AccountId) returns (r: Outcome<Updates>)
      modifies this`accounts, this`index
      ensures Agrees(ApplyClose(old(Contents()), c, id), old(Contents()), Contents(), r)
    {
      if id !in accounts {
        return Panicked;
      }
      var account := accounts[id];
      if account.tokens != {} {
        return Rejected(AccountNotEmpty);
      }
      if c.nonce != account.nonce {
        return Rejected(NonceMismatch);
      }
      RemoveAccount(id);
      r := Done([(id, Delete(account.address, account.nonce))]);
    }

    method ExecutePriorityOp(data: PriorityData) returns (r: Outcome<OpSuccess>)
      modifies this`accounts, this`index
      ensures AgreesOp(ExecutePriority(old(Contents()), data), old(Contents()), Contents(), r)
    {
      match data
      case DepositRequest(d) =>
        var found := GetAccountByAddress(d.to);
        if found.Panicked? {
          return Panicked;
        }
        var id;
        if found.value.Some? {
          id := found.value.value;
        } else {
          id := GetFreeAccountId();
        }
        var updates := ApplyDepositOp(d, id);
        r := Named(updates, DepositOp(d, id));
      case FullExitRequest(e) =>
        var updates := ApplyFullExitOp(e.accountId);
        r := Named(updates, FullExitOp(e));
    }

    method ExecuteTransaction(tx: Tx) returns (r: Outcome<OpSuccess>)
      modifies this`accounts, this`index
      ensures AgreesOp(ExecuteTx(old(Contents()), tx), old(Contents()), Contents(), r)
    {
      match tx
      case TransferTx(t) => r := ExecuteTransferTx(t);
      case WithdrawTx(w) => r := ExecuteWithdrawTx(w);
      case CloseTx(_) => r := Rejected(ClosingDisabled);
      case ChangePubKeyTx(p) => r := ExecuteChangePubKeyTx(p);
    }

    method ExecuteTransferTx(t: Transfer) returns (r: Outcome<OpSuccess>)
      modifies this`accounts, this`index
      ensures AgreesOp(ExecuteTransfer(old(Contents()), t), old(Contents()), Contents(), r)
    {
      if t.token >= TOTAL_TOKENS {
        return Rejected(UnsupportedToken);
      }
      var sender := GetAccountByAddress(t.from);
      if sender.Panicked? {
        return Panicked;
      }
      if sender.value.None? {
        return Rejected(NoSender);
      }
      var from := sender.value.value;
      if accounts[from].pubKeyHash == NO_PUB_KEY {
        return Rejected(Locked);
      }
      if t.signer != Some(accounts[from].pubKeyHash) {
        return Rejected(BadSignature);
      }
      if from != t.accountId {
        return Rejected(WrongAccountId);
      }
      var recipient := GetAccountByAddress(t.to);
      if recipient.Panicked? {
        return Panicked;
      }
      if recipient.value.Some? {
        var to := recipient.value.value;
        var updates := ApplyTransferOp(t, from, to);
        r := Named(updates, TransferOp(t, from, to));
      } else {
        var to := GetFreeAccountId();
        var updates := ApplyTransferToNewOp(t, from, to);
        r := Named(updates, TransferToNewOp(t, from, to));
      }
    }

    method ExecuteWithdrawTx(w: Withdraw) returns (r: Outcome<OpSuccess>)
      modifies this`accounts, this`index
      ensures AgreesOp(ExecuteWithdraw(old(Contents()), w), old(Contents()), Contents(), r)
    {
      if w.token >= TOTAL_TOKENS {
        return Rejected(UnsupportedToken);
      }
      var sender := GetAccountByAddress(w.from);
      if sender.Panicked? {
        return Panicked;
      }
      if sender.value.None? {
        return Rejected(NoSender);
      }
      var id := sender.value.value;
      if accounts[id].pubKeyHash == NO_PUB_KEY {
        return Rejected(Locked);
      }
      if w.signer != Some(accounts[id].pubKeyHash) {
        return Rejected(BadSignature);
      }
      if id != w.accountId {
        return Rejected(WrongAccountId);
      }
      var updates := ApplyWithdrawOp(w, id);
      r := Named(updates, WithdrawOp(w, id));
    }

    method ExecuteChangePubKeyTx(p: ChangePubKey) returns (r: Outcome<OpSuccess>)
      modifies this`accounts, this`index
      ensures AgreesOp(ExecuteChangePubKey(old(Contents()), p), old(Contents()), Contents(), r)
    {
      var owner := GetAccountByAddress(p.account);
      if owner.Panicked? {
        return Panicked;
      }
      if owner.value.None? {
        return Rejected(NoSender);
      }
      var id := owner.value.value;
      if p.ethSignature.Some? && p.ethSignature.value != Some(accounts[id].address) {
        return Rejected(BadSignature);
      }
      if id != p.accountId {
        return Rejected(WrongAccountId);
      }
      var updates := ApplyChangePubKeyOp(p, id);
      r := Named(updates, ChangePubKeyOp(p, id));
    }

    /** Fee collection is switched off: all that is left is that the fee account must exist. */
    method CollectFee(feeAccount: AccountId) returns (r: Outcome<Updates>)
      ensures r == if feeAccount in accounts then Done([]) else Panicked
    {
      r := if feeAccount in accounts then Done([]) else Panicked;
    }
  }
}
