/** Runs of the ledger: any sequence of priority operations and transactions,
    and the invariant that ties the address index to the account tree. */
module LedgerRuns {
  import opened Types
  import opened Ledger

  /** A request that was executed, with the operation it became and the updates it logged. */
  datatype Effect = Effect(item: Item, op: FranklinOp, updates: Updates)

  /** A transaction that was refused. */
  datatype Refusal = Refusal(tx: Tx, reason: Reason)

  /** A run so far: the ledger, what was executed and what was refused, in order, and whether an abort ended it. */
  datatype Run = Run(state: State, done: seq<Effect>, refused: seq<Refusal>, halted: bool)

  function Step(r: Run, item: Item): Run {
    if r.halted then r else
    match Execute(r.state, item)
    case Done(e) => r.(state := e.state, done := r.done + [Effect(item, e.op, e.updates)])
    case Rejected(reason) =>
      if item.Transaction? then r.(refused := r.refused + [Refusal(item.tx, reason)]) else r.(halted := true)
    case Panicked => r.(halted := true)
  }

  function RunAll(s: State, items: seq<Item>): Run {
    if items == [] then Run(s, [], [], false)
    else Step(RunAll(s, items[..|items| - 1]), items[|items| - 1])
  }

  // ---------- The index invariant ----------

  ghost predicate Dense(s: State) {
    forall id: nat :: id in s.accounts <==> id < |s.accounts|
  }

  ghost predicate Indexed(s: State) {
    forall id | id in s.accounts :: s.accounts[id].address in s.index && s.index[s.accounts[id].address] == id
  }

  ghost predicate Resolves(s: State) {
    forall a | a in s.index :: s.index[a] in s.accounts && s.accounts[s.index[a]].address == a
  }

  /** Ids are dense and within the tree, and the index and the tree are mutually inverse. */
  ghost predicate Inv(s: State) {
    Dense(s) && |s.accounts| <= CAPACITY && Indexed(s) && Resolves(s)
  }

  /** What one executed request may do to the accounts that were already there. */
  ghost predicate Extends(s: State, t: State) {
    && s.accounts.Keys <= t.accounts.Keys
    && (forall id | id in s.accounts ::
          t.accounts[id].address == s.accounts[id].address && s.accounts[id].nonce <= t.accounts[id].nonce)
    && s.index.Keys <= t.index.Keys
    && (forall a | a in s.index :: t.index[a] == s.index[a])
  }

  /** The id an address has, or would be given. */
  function Slot(s: State, address: Address): AccountId {
    if address in s.index then s.index[address] else |s.accounts|
  }

  lemma InsertKeepsDense(s: State, id: AccountId, account: Account)
    requires Dense(s) && id <= |s.accounts|
    ensures Dense(Insert(s, id, account))
    ensures |Insert(s, id, account).accounts| == if id in s.accounts then |s.accounts| else |s.accounts| + 1
  {
  }

  lemma InsertKeepsInverse(s: State, account: Account)
    requires Dense(s) && Indexed(s) && Resolves(s)
    ensures Indexed(Insert(s, Slot(s, account.address), account))
    ensures Resolves(Insert(s, Slot(s, account.address), account))
  {
  }

  /** Writing back an account under its own id, or a new account under the next id. */
  lemma InsertKeepsInv(s: State, account: Account)
    requires Inv(s)
    requires account.address in s.index ==> s.accounts[s.index[account.address]].nonce <= account.nonce
    requires account.address !in s.index ==> |s.accounts| < CAPACITY
    ensures Inv(Insert(s, Slot(s, account.address), account))
    ensures Extends(s, Insert(s, Slot(s, account.address), account))
  {
    InsertKeepsDense(s, Slot(s, account.address), account);
    InsertKeepsInverse(s, account);
  }

  lemma WriteKeepsInv(s: State, id: AccountId, account: Account)
    requires Inv(s) && id in s.accounts
    requires account.address == s.accounts[id].address && account.nonce >= s.accounts[id].nonce
    ensures Inv(Insert(s, id, account))
    ensures Extends(s, Insert(s, id, account))
  {
    InsertKeepsInv(s, account);
  }

  lemma ExtendsTransitive(s: State, t: State, u: State)
    requires Extends(s, t) && Extends(t, u)
    ensures Extends(s, u)
  {
  }

  // ---------- What each request does, given the invariant ----------

  lemma DepositShape(s: State, d: Deposit)
    requires Inv(s) && ExecuteDeposit(s, d).Done?
    ensures var e := ExecuteDeposit(s, d).value;
            var id := Slot(s, d.to);
            && e.op == DepositOp(d, id)
            && (d.to in s.index ==>
                  && id in s.accounts && s.accounts[id].address == d.to
                  && e.state == Insert(s, id, WithToken(s.accounts[id], d.token))
                  && e.updates == [(id, AddToken(s.accounts[id].nonce, s.accounts[id].nonce, d.token))])
            && (d.to !in s.index ==>
                  && id !in s.accounts && id < CAPACITY
                  && e.state == Insert(s, id, WithToken(NewAccount(d.to), d.token))
                  && e.updates == [(id, Create(d.to, 0)), (id, AddToken(0, 0, d.token))])
  {
  }

  lemma TransferShape(s: State, t: Transfer)
    requires Inv(s) && ExecuteTransfer(s, t).Done?
    ensures t.from in s.index && s.index[t.from] in s.accounts
    ensures var e := ExecuteTransfer(s, t).value;
            var from, to := s.index[t.from], Slot(s, t.to);
            var account := s.accounts[from];
            && account.address == t.from && account.nonce == t.nonce < MAX_NONCE && t.token in account.tokens
            && (t.to == t.from ==>
                  && e.op == TransferOp(t, from, from) && e.updates == []
                  && e.state == Insert(s, from, account.(nonce := account.nonce + 1)))
            && (t.to != t.from && t.to in s.index ==>
                  && to in s.accounts && to != from && s.accounts[to].address == t.to
                  && e.op == TransferOp(t, from, to)
                  && e.state == Insert(Insert(s, from, Spent(account, t.token)), to, WithToken(s.accounts[to], t.token))
                  && e.updates == [
                       (from, RemoveToken(account.nonce, account.nonce + 1, t.token)),
                       (to, AddToken(s.accounts[to].nonce, s.accounts[to].nonce, t.token))])
            && (t.to !in s.index ==>
                  && to !in s.accounts && to < CAPACITY
                  && e.op == TransferToNewOp(t, from, to)
                  && e.state == Insert(Insert(s, from, Spent(account, t.token)),
                                       to, WithToken(NewAccount(t.to), t.token))
                  && e.updates == [
                       (to, Create(t.to, 0)),
                       (from, RemoveToken(account.nonce, account.nonce + 1, t.token)),
                       (to, AddToken(0, 0, t.token))])
  {
  }

  lemma WithdrawShape(s: State, w: Withdraw)
    requires Inv(s) && ExecuteWithdraw(s, w).Done?
    ensures w.from in s.index && s.index[w.from] in s.accounts
    ensures var e := ExecuteWithdraw(s, w).value;
            var id := s.index[w.from];
            var account := s.accounts[id];
            && account.address == w.from && account.nonce == w.nonce < MAX_NONCE && w.token in account.tokens
            && e.op == WithdrawOp(w, id)
            && e.state == Insert(s, id, Spent(account, w.token))
            && e.updates == [(id, RemoveToken(account.nonce, account.nonce + 1, w.token))]
  {
  }

  lemma ChangePubKeyShape(s: State, p: ChangePubKey)
    requires Inv(s) && ExecuteChangePubKey(s, p).Done?
    ensures p.account in s.index && s.index[p.account] in s.accounts
    ensures var e := ExecuteChangePubKey(s, p).value;
            var id := s.index[p.account];
            var account := s.accounts[id];
            && account.address == p.account && account.nonce == p.nonce < MAX_NONCE
            && e.op == ChangePubKeyOp(p, id)
            && e.state == Insert(s, id, account.(nonce := account.nonce + 1, pubKeyHash := p.newPubKeyHash))
            && e.updates == [
                 (id, ChangePubKeyHash(account.pubKeyHash, p.newPubKeyHash, account.nonce, account.nonce + 1))]
  {
  }

  /** A full exit empties the account and logs each token it held once, the smallest first. */
  lemma FullExitShape(s: State, e: FullExit)
    requires e.accountId in s.accounts
    ensures ExecutePriority(s, FullExitRequest(e)).Done?
    ensures var x := ExecutePriority(s, FullExitRequest(e)).value;
            var account := s.accounts[e.accountId];
            && x.op == FullExitOp(e) && x.state == Insert(s, e.accountId, account.(tokens := {}))
            && |x.updates| == |account.tokens|
            && (forall i | 0 <= i < |x.updates| ::
                  && x.updates[i].0 == e.accountId && x.updates[i].1.RemoveToken?
                  && x.updates[i].1.oldNonce == x.updates[i].1.newNonce == account.nonce
                  && x.updates[i].1.token in account.tokens)
            && (forall i, j | 0 <= i < j < |x.updates| :: x.updates[i].1.token < x.updates[j].1.token)
  {
    var q := Ascending(s.accounts[e.accountId].tokens);
    assert forall i | 0 <= i < |q| :: q[i] in q;
  }

  /** Closing takes an account without tokens, named with its nonce, out of tree and index, and leaves the others. */
  lemma CloseExactly(s: State, c: Close, id: AccountId)
    requires Indexed(s) && Resolves(s) && id in s.accounts
    ensures var o, account := ApplyClose(s, c, id), s.accounts[id];
            && (o == Rejected(AccountNotEmpty) <==> account.tokens != {})
            && (o == Rejected(NonceMismatch) <==> account.tokens == {} && c.nonce != account.nonce)
            && (o.Done? <==> account.tokens == {} && c.nonce == account.nonce)
            && (o.Done? ==>
                  && Indexed(o.value.state) && Resolves(o.value.state)
                  && o.value.state.accounts.Keys == s.accounts.Keys - {id}
                  && (forall j | j in s.accounts && j != id :: o.value.state.accounts[j] == s.accounts[j])
                  && o.value.updates == [(id, Delete(account.address, account.nonce))])
  {
  }

  // ---------- Every request keeps the invariant ----------

  lemma TransferKeepsInv(s: State, t: Transfer)
    requires Inv(s) && ExecuteTransfer(s, t).Done?
    ensures Inv(ExecuteTransfer(s, t).value.state) && Extends(s, ExecuteTransfer(s, t).value.state)
  {
    hide Inv, Extends, ExecuteTransfer;
    TransferShape(s, t);
    var after := ExecuteTransfer(s, t).value.state;
    var from, to := s.index[t.from], Slot(s, t.to);
    var account := s.accounts[from];
    if t.to == t.from {
      WriteKeepsInv(s, from, account.(nonce := account.nonce + 1));
    } else {
      var paid := Insert(s, from, Spent(account, t.token));
      WriteKeepsInv(s, from, Spent(account, t.token));
      if t.to in s.index {
        WriteKeepsInv(paid, to, WithToken(s.accounts[to], t.token));
      } else {
        assert Slot(paid, t.to) == to;
        InsertKeepsInv(paid, WithToken(NewAccount(t.to), t.token));
      }
      ExtendsTransitive(s, paid, after);
    }
  }

  lemma ExecuteKeepsInv(s: State, item: Item)
    requires Inv(s) && Execute(s, item).Done?
    ensures Inv(Execute(s, item).value.state) && Extends(s, Execute(s, item).value.state)
  {
    hide Inv, Extends, ExecuteDeposit, ExecuteTransfer, ExecuteWithdraw, ExecuteChangePubKey;
    match item
    case Priority(PriorityOp(_, DepositRequest(d))) =>
      DepositShape(s, d);
      var id := Slot(s, d.to);
      if d.to in s.index {
        WriteKeepsInv(s, id, WithToken(s.accounts[id], d.token));
      } else {
        InsertKeepsInv(s, WithToken(NewAccount(d.to), d.token));
      }
    case Priority(PriorityOp(_, FullExitRequest(e))) =>
      WriteKeepsInv(s, e.accountId, s.accounts[e.accountId].(tokens := {}));
    case Transaction(TransferTx(t)) =>
      TransferKeepsInv(s, t);
    case Transaction(WithdrawTx(w)) =>
      WithdrawShape(s, w);
      WriteKeepsInv(s, s.index[w.from], Spent(s.accounts[s.index[w.from]], w.token));
    case Transaction(ChangePubKeyTx(p)) =>
      ChangePubKeyShape(s, p);
      var account := s.accounts[s.index[p.account]];
      WriteKeepsInv(s, s.index[p.account],
                    account.(nonce := account.nonce + 1, pubKeyHash := p.newPubKeyHash));
  }

  lemma ExtendsReflexive(s: State)
    ensures Extends(s, s)
  {
  }

  lemma {:induction false} RunKeepsInv(s: State, items: seq<Item>)
    requires Inv(s)
    ensures Inv(RunAll(s, items).state)
    ensures Extends(s, RunAll(s, items).state)
  {
    hide Inv, Extends, Execute;
    if items == [] {
      ExtendsReflexive(s);
    } else {
      var before := RunAll(s, items[..|items| - 1]);
      RunKeepsInv(s, items[..|items| - 1]);
      if !before.halted && Execute(before.state, items[|items| - 1]).Done? {
        ExecuteKeepsInv(before.state, items[|items| - 1]);
        ExtendsTransitive(s, before.state, RunAll(s, items).state);
      }
    }
  }

  // ---------- When execution succeeds, is refused, or aborts ----------

  /** The account of an address; for an address without one, the account it would be given. */
  function Holder(s: State, address: Address): Account {
    if address in s.index && s.index[address] in s.accounts then s.accounts[s.index[address]] else NewAccount(address)
  }

  /** The sender has an account, names it, and has unlocked it with the key that signed. */
  predicate Signed(s: State, from: Address, accountId: AccountId, signer: Option<PubKeyHash>) {
    && from in s.index && s.index[from] == accountId
    && Holder(s, from).pubKeyHash != NO_PUB_KEY && signer == Some(Holder(s, from).pubKeyHash)
  }

  predicate Spendable(s: State, from: Address, nonce: nat, token: TokenId) {
    nonce == Holder(s, from).nonce && token in Holder(s, from).tokens
  }

  /** There is an account for the address, or a place in the tree for one. */
  predicate HasRoom(s: State, address: Address) {
    address in s.index || |s.accounts| < CAPACITY
  }

  /** All that a key change asks of its sender; a signature on chain instead of one of the wallet is as good. */
  predicate OwnKeyChange(s: State, p: ChangePubKey) {
    && p.account in s.index && s.index[p.account] == p.accountId
    && (p.ethSignature.None? || p.ethSignature.value == Some(p.account))
    && p.nonce == Holder(s, p.account).nonce
  }

  /** What a request may ask of the ledger it meets: everything but a free nonce and a place in the tree. */
  predicate Permitted(s: State, item: Item) {
    match item
    case Priority(_) => true
    case Transaction(TransferTx(t)) =>
      t.token < TOTAL_TOKENS && Signed(s, t.from, t.accountId, t.signer) && Spendable(s, t.from, t.nonce, t.token)
    case Transaction(WithdrawTx(w)) =>
      w.token < TOTAL_TOKENS && Signed(s, w.from, w.accountId, w.signer) && Spendable(s, w.from, w.nonce, w.token)
    case Transaction(CloseTx(_)) => false
    case Transaction(ChangePubKeyTx(p)) => OwnKeyChange(s, p)
  }

  /** What stops a permitted request. */
  predicate Exhausted(s: State, item: Item) {
    match item
    case Priority(PriorityOp(_, DepositRequest(d))) => !HasRoom(s, d.to)
    case Priority(PriorityOp(_, FullExitRequest(e))) => e.accountId !in s.accounts
    case Transaction(TransferTx(t)) => t.nonce >= MAX_NONCE || !HasRoom(s, t.to)
    case Transaction(tx) => tx.Nonce() >= MAX_NONCE
  }

  lemma TransferExactly(s: State, t: Transfer)
    requires Inv(s)
    ensures var item := Transaction(TransferTx(t));
            && (ExecuteTransfer(s, t).Done? <==> Permitted(s, item) && !Exhausted(s, item))
            && (ExecuteTransfer(s, t).Panicked? <==> Permitted(s, item) && Exhausted(s, item))
  {
    hide Insert;
  }

  lemma WithdrawExactly(s: State, w: Withdraw)
    requires Inv(s)
    ensures var item := Transaction(WithdrawTx(w));
            && (ExecuteWithdraw(s, w).Done? <==> Permitted(s, item) && !Exhausted(s, item))
            && (ExecuteWithdraw(s, w).Panicked? <==> Permitted(s, item) && Exhausted(s, item))
  {
    hide Insert, Dense;
  }

  lemma ChangePubKeyExactly(s: State, p: ChangePubKey)
    requires Inv(s)
    ensures var item := Transaction(ChangePubKeyTx(p));
            && (ExecuteChangePubKey(s, p).Done? <==> Permitted(s, item) && !Exhausted(s, item))
            && (ExecuteChangePubKey(s, p).Panicked? <==> Permitted(s, item) && Exhausted(s, item))
  {
    hide Insert, Dense;
  }

  /** A request is executed exactly when it is permitted and neither its nonce nor the tree is exhausted, aborts exactly
      when it is permitted and one of them is, and so is refused exactly when it is not permitted. */
  lemma ExecutesExactly(s: State, item: Item)
    requires Inv(s)
    ensures Execute(s, item).Done? <==> Permitted(s, item) && !Exhausted(s, item)
    ensures Execute(s, item).Panicked? <==> Permitted(s, item) && Exhausted(s, item)
    ensures Execute(s, item).Rejected? <==> !Permitted(s, item)
  {
    match item
    case Priority(PriorityOp(_, DepositRequest(d))) =>
      hide Permitted;
      assert Permitted(s, item) by { PriorityPermitted(s, item.request); }
      DepositExactly(s, d);
    case Priority(PriorityOp(_, FullExitRequest(_))) =>
    case Transaction(TransferTx(t)) => hide ExecuteTransfer; TransferExactly(s, t);
    case Transaction(WithdrawTx(w)) => hide ExecuteWithdraw; WithdrawExactly(s, w);
    case Transaction(CloseTx(_)) =>
    case Transaction(ChangePubKeyTx(p)) => hide ExecuteChangePubKey; ChangePubKeyExactly(s, p);
  }

  lemma PriorityPermitted(s: State, request: PriorityOp)
    ensures Permitted(s, Priority(request))
  {
  }

  lemma DepositExactly(s: State, d: Deposit)
    requires Inv(s)
    ensures !ExecuteDeposit(s, d).Rejected? && (ExecuteDeposit(s, d).Panicked? <==> !HasRoom(s, d.to))
  {
  }

  /** The ledger a request met is the one left by the requests before it. */
  ghost predicate Met(s: State, items: seq<Item>, i: nat, k: nat, item: Item) {
    && k < |items| && items[k] == item
    && |RunAll(s, items[..k]).done| == i && !RunAll(s, items[..k]).halted
    && Permitted(RunAll(s, items[..k]).state, item) && !Exhausted(RunAll(s, items[..k]).state, item)
  }

  /** Over any run, whatever was executed was permitted by the ledger it met: so every executed transfer and withdrawal
      was signed by the key its sender's account held at that moment. */
  lemma {:induction false} ExecutedWasPermitted(s: State, items: seq<Item>, i: nat)
    requires Inv(s) && i < |RunAll(s, items).done|
    ensures exists k: nat :: Met(s, items, i, k, RunAll(s, items).done[i].item)
  {
    hide Inv, Extends, Execute, Permitted, Exhausted;
    if items != [] {
      var n := |items| - 1;
      var before, run := RunAll(s, items[..n]), RunAll(s, items);
      if i < |before.done| {
        ExecutedWasPermitted(s, items[..n], i);
        var k: nat :| Met(s, items[..n], i, k, before.done[i].item);
        assert items[..n][..k] == items[..k];
        assert Met(s, items, i, k, run.done[i].item);
      } else {
        RunKeepsInv(s, items[..n]);
        ExecutesExactly(before.state, items[n]);
        assert Met(s, items, i, n, run.done[i].item);
      }
    }
  }

  // ---------- Which refusal ----------

  /** Check `k` fails, and none before it does. */
  predicate FirstFailing(checks: seq<(bool, Reason)>, k: nat) {
    k < |checks| && !checks[k].0 && forall j | 0 <= j < k :: checks[j].0
  }

  function SenderChecks(s: State, from: Address, accountId: AccountId, signer: Option<PubKeyHash>, token: TokenId,
                        nonce: nat): seq<(bool, Reason)>
  {
    var account := Holder(s, from);
    [ (token < TOTAL_TOKENS, UnsupportedToken),
      (from in s.index, NoSender),
      (account.pubKeyHash != NO_PUB_KEY, Locked),
      (signer == Some(account.pubKeyHash), BadSignature),
      (from in s.index && s.index[from] == accountId, WrongAccountId),
      (nonce == account.nonce, NonceMismatch),
      (token in account.tokens, NotOwner)]
  }

  /** The checks of a transaction in the order in which they are made. */
  function Checks(s: State, tx: Tx): seq<(bool, Reason)> {
    match tx
    case TransferTx(t) => SenderChecks(s, t.from, t.accountId, t.signer, t.token, t.nonce)
    case WithdrawTx(w) => SenderChecks(s, w.from, w.accountId, w.signer, w.token, w.nonce)
    case CloseTx(_) => [(false, ClosingDisabled)]
    case ChangePubKeyTx(p) =>
      [ (p.account in s.index, NoSender),
        (p.ethSignature.None? || p.ethSignature.value == Some(p.account), BadSignature),
        (p.account in s.index && s.index[p.account] == p.accountId, WrongAccountId),
        (p.nonce == Holder(s, p.account).nonce, NonceMismatch)]
  }

  lemma {:induction false} SomeFirstFails(checks: seq<(bool, Reason)>, k: nat)
    requires k < |checks| && !checks[k].0
    ensures exists j: nat :: FirstFailing(checks, j)
  {
    if !FirstFailing(checks, k) {
      var j: nat :| j < k && !checks[j].0;
      SomeFirstFails(checks, j);
    }
  }

  lemma TransferRefusedForFirst(s: State, t: Transfer, k: nat)
    requires Inv(s) && FirstFailing(Checks(s, TransferTx(t)), k)
    ensures ExecuteTransfer(s, t) == Rejected(Checks(s, TransferTx(t))[k].1)
  {
    hide Insert;
    var c := Checks(s, TransferTx(t));
    assert (0 < k ==> c[0].0) && (1 < k ==> c[1].0) && (2 < k ==> c[2].0) && (3 < k ==> c[3].0);
    assert (4 < k ==> c[4].0) && (5 < k ==> c[5].0);
  }

  lemma WithdrawRefusedForFirst(s: State, w: Withdraw, k: nat)
    requires Inv(s) && FirstFailing(Checks(s, WithdrawTx(w)), k)
    ensures ExecuteWithdraw(s, w) == Rejected(Checks(s, WithdrawTx(w))[k].1)
  {
    hide Insert;
    var c := Checks(s, WithdrawTx(w));
    assert (0 < k ==> c[0].0) && (1 < k ==> c[1].0) && (2 < k ==> c[2].0) && (3 < k ==> c[3].0);
    assert (4 < k ==> c[4].0) && (5 < k ==> c[5].0);
  }

  lemma ChangePubKeyRefusedForFirst(s: State, p: ChangePubKey, k: nat)
    requires Inv(s) && FirstFailing(Checks(s, ChangePubKeyTx(p)), k)
    ensures ExecuteChangePubKey(s, p) == Rejected(Checks(s, ChangePubKeyTx(p))[k].1)
  {
    hide Insert;
    var c := Checks(s, ChangePubKeyTx(p));
    assert (0 < k ==> c[0].0) && (1 < k ==> c[1].0) && (2 < k ==> c[2].0);
  }

  lemma RefusalFails(s: State, tx: Tx)
    requires Inv(s) && !Permitted(s, Transaction(tx))
    ensures exists k: nat :: k < |Checks(s, tx)| && !Checks(s, tx)[k].0
  {
    var c := Checks(s, tx);
    if tx.TransferTx? || tx.WithdrawTx? {
      assert !(c[0].0 && c[1].0 && c[2].0 && c[3].0 && c[4].0 && c[5].0 && c[6].0);
    } else if tx.ChangePubKeyTx? {
      assert !(c[0].0 && c[1].0 && c[2].0 && c[3].0);
    } else {
      assert !c[0].0;
    }
  }

  /** A transaction is refused exactly when one of its checks fails, and for the first that does. */
  lemma RefusedForFirst(s: State, tx: Tx, k: nat)
    requires Inv(s)
    ensures FirstFailing(Checks(s, tx), k) ==> ExecuteTx(s, tx) == Rejected(Checks(s, tx)[k].1)
    ensures ExecuteTx(s, tx).Rejected? ==> exists j: nat :: FirstFailing(Checks(s, tx), j)
  {
    hide Inv, Permitted, ExecuteTransfer, ExecuteWithdraw, ExecuteChangePubKey, Checks;
    if FirstFailing(Checks(s, tx), k) {
      match tx
      case TransferTx(t) => TransferRefusedForFirst(s, t, k);
      case WithdrawTx(w) => WithdrawRefusedForFirst(s, w, k);
      case CloseTx(c) => assert Checks(s, tx)[k].1 == ClosingDisabled by { CloseChecks(s, c); }
      case ChangePubKeyTx(p) => ChangePubKeyRefusedForFirst(s, p, k);
    }
    if ExecuteTx(s, tx).Rejected? {
      ExecutesExactly(s, Transaction(tx));
      RefusalFails(s, tx);
      var j: nat :| j < |Checks(s, tx)| && !Checks(s, tx)[j].0;
      SomeFirstFails(Checks(s, tx), j);
    }
  }

  lemma CloseChecks(s: State, c: Close)
    ensures Checks(s, CloseTx(c)) == [(false, ClosingDisabled)]
  {
  }
}
