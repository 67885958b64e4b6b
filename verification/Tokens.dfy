/** Ownership of the non-fungible tokens: at most one owner each, and none
    appears or disappears except by deposit, withdrawal or full exit. */
module Tokens {
  import opened Types
  import opened Ledger
  import opened LedgerRuns

  ghost predicate SoleOwners(s: State) {
    forall i, j, t | i in s.accounts && j in s.accounts && t in s.accounts[i].tokens && t in s.accounts[j].tokens ::
      i == j
  }

  function Held(s: State): set<TokenId> {
    set id, t | id in s.accounts && t in s.accounts[id].tokens :: t
  }

  // ---------- One request ----------

  /** The tokens an executed request brings into the rollup. */
  function Arriving(e: Effect): set<TokenId> {
    if e.op.DepositOp? then {e.op.deposit.token} else {}
  }

  function Removed(us: Updates): set<TokenId> {
    set u | u in us && u.1.RemoveToken? :: u.1.token
  }

  /** The tokens it takes out: the one withdrawn, or every one a full exit logs as removed. */
  function Leaving(e: Effect): set<TokenId> {
    match e.op
    case WithdrawOp(w, _) => {w.token}
    case FullExitOp(_) => Removed(e.updates)
    case _ => {}
  }

  /** Only deposits of tokens nobody in the rollup holds. */
  predicate FreshDeposit(s: State, item: Item) {
    item.Priority? && item.request.data.DepositRequest? ==> item.request.data.deposit.token !in Held(s)
  }

  lemma ExitRemovesTokens(id: AccountId, account: Account)
    ensures Removed(ExitUpdates(id, account.nonce, Ascending(account.tokens))) == account.tokens
  {
    var order := Ascending(account.tokens);
    var us := ExitUpdates(id, account.nonce, order);
    forall t | t in account.tokens
      ensures exists u :: u in us && u.1.RemoveToken? && u.1.token == t
    {
      var k :| 0 <= k < |order| && order[k] == t;
      assert us[k] in us;
    }
  }

  /** A write of one account's token set, the only change of ownership there is. */
  lemma Rewrite(s: State, id: AccountId, account: Account)
    requires SoleOwners(s)
    requires forall t, j | t in account.tokens && j in s.accounts && t in s.accounts[j].tokens :: j == id
    ensures SoleOwners(Insert(s, id, account))
    ensures Held(Insert(s, id, account)) ==
            Held(s) - (if id in s.accounts then s.accounts[id].tokens else {}) + account.tokens
  {
    var after := Insert(s, id, account);
    assert forall t | t in account.tokens :: id in after.accounts && t in after.accounts[id].tokens;
    forall t | t in Held(s) && !(id in s.accounts && t in s.accounts[id].tokens)
      ensures t in Held(after)
    {
      var j :| j in s.accounts && t in s.accounts[j].tokens;
      assert j in after.accounts && t in after.accounts[j].tokens;
    }
  }

  lemma HeldByAccount(s: State, id: AccountId)
    requires id in s.accounts
    ensures s.accounts[id].tokens <= Held(s)
  {
    forall t | t in s.accounts[id].tokens ensures t in Held(s) {}
  }

  lemma TransferMovesToken(s: State, t: Transfer)
    requires Inv(s) && SoleOwners(s) && ExecuteTransfer(s, t).Done?
    ensures SoleOwners(ExecuteTransfer(s, t).value.state)
    ensures Held(ExecuteTransfer(s, t).value.state) == Held(s)
    ensures ExecuteTransfer(s, t).value.op.TransferOp? || ExecuteTransfer(s, t).value.op.TransferToNewOp?
  {
    hide Inv, Held, SoleOwners, ExecuteTransfer;
    TransferShape(s, t);
    var from, to := s.index[t.from], Slot(s, t.to);
    var account := s.accounts[from];
    if t.to == t.from {
      KeepConserves(s, from, account.(nonce := account.nonce + 1));
    } else {
      var target := if t.to in s.index then s.accounts[to] else NewAccount(t.to);
      KeepConserves(s, from, Spent(account, t.token));
      GainConserves(Insert(s, from, Spent(account, t.token)), to, target, t.token);
    }
  }

  /** A write that gives an account, possibly a new one, a token nobody holds. */
  lemma GainConserves(s: State, id: AccountId, account: Account, token: TokenId)
    requires SoleOwners(s) && token !in Held(s)
    requires if id in s.accounts then account == s.accounts[id] else account.tokens == {}
    ensures SoleOwners(Insert(s, id, WithToken(account, token)))
    ensures Held(Insert(s, id, WithToken(account, token))) == Held(s) + {token}
  {
    forall j | j in s.accounts ensures s.accounts[j].tokens <= Held(s) { HeldByAccount(s, j); }
    assert forall t | t in Held(s) :: exists j :: j in s.accounts && t in s.accounts[j].tokens;
    Rewrite(s, id, WithToken(account, token));
  }

  lemma DepositConserves(s: State, d: Deposit)
    requires Inv(s) && SoleOwners(s) && d.token !in Held(s) && ExecuteDeposit(s, d).Done?
    ensures SoleOwners(ExecuteDeposit(s, d).value.state)
    ensures Held(ExecuteDeposit(s, d).value.state) == Held(s) + {d.token}
    ensures ExecuteDeposit(s, d).value.op.DepositOp? && ExecuteDeposit(s, d).value.op.deposit == d
  {
    hide Inv, Held, SoleOwners, ExecuteDeposit;
    DepositShape(s, d);
    var id := Slot(s, d.to);
    GainConserves(s, id, if d.to in s.index then s.accounts[id] else NewAccount(d.to), d.token);
  }

  /** A write that changes only which of its own tokens an account keeps. */
  lemma KeepConserves(s: State, id: AccountId, account: Account)
    requires SoleOwners(s) && id in s.accounts && account.tokens <= s.accounts[id].tokens
    ensures SoleOwners(Insert(s, id, account))
    ensures Held(Insert(s, id, account)) == Held(s) - (s.accounts[id].tokens - account.tokens)
    ensures s.accounts[id].tokens <= Held(s)
  {
    Rewrite(s, id, account);
    HeldByAccount(s, id);
  }

  lemma FullExitConserves(s: State, e: FullExit)
    requires SoleOwners(s) && ApplyFullExit(s, e.accountId).Done?
    ensures var a := ApplyFullExit(s, e.accountId).value;
            var leaving := Removed(a.updates);
            SoleOwners(a.state) && leaving <= Held(s) && Held(a.state) == Held(s) - leaving
  {
    hide Held, SoleOwners, Removed, ExitUpdates, Ascending;
    KeepConserves(s, e.accountId, s.accounts[e.accountId].(tokens := {}));
    ExitRemovesTokens(e.accountId, s.accounts[e.accountId]);
  }

  lemma WithdrawConserves(s: State, w: Withdraw)
    requires Inv(s) && SoleOwners(s) && ExecuteWithdraw(s, w).Done?
    ensures var e := ExecuteWithdraw(s, w).value;
            && SoleOwners(e.state) && w.token in Held(s) && Held(e.state) == Held(s) - {w.token}
            && e.op.WithdrawOp? && e.op.withdraw == w
  {
    hide Inv, Held, SoleOwners, ExecuteWithdraw;
    WithdrawShape(s, w);
    var account := s.accounts[s.index[w.from]];
    KeepConserves(s, s.index[w.from], Spent(account, w.token));
    assert account.tokens - Spent(account, w.token).tokens == {w.token};
  }

  lemma ChangePubKeyConserves(s: State, p: ChangePubKey)
    requires Inv(s) && SoleOwners(s) && ExecuteChangePubKey(s, p).Done?
    ensures var e := ExecuteChangePubKey(s, p).value;
            SoleOwners(e.state) && Held(e.state) == Held(s) && e.op.ChangePubKeyOp?
  {
    hide Inv, Held, SoleOwners, ExecuteChangePubKey;
    ChangePubKeyShape(s, p);
    var account := s.accounts[s.index[p.account]];
    KeepConserves(s, s.index[p.account], account.(nonce := account.nonce + 1, pubKeyHash := p.newPubKeyHash));
  }

  lemma ExecuteConserves(s: State, item: Item)
    requires Inv(s) && SoleOwners(s) && FreshDeposit(s, item)
    requires Execute(s, item).Done?
    ensures var e := Execute(s, item).value;
            var effect := Effect(item, e.op, e.updates);
            && SoleOwners(e.state)
            && Held(s) !! Arriving(effect)
            && Leaving(effect) <= Held(s)
            && Held(e.state) == Held(s) + Arriving(effect) - Leaving(effect)
  {
    hide Held, SoleOwners, Inv, ExecuteDeposit, ApplyFullExit, ExecuteTransfer, ExecuteWithdraw, ExecuteChangePubKey;
    match item
    case Priority(PriorityOp(_, DepositRequest(d))) => DepositConserves(s, d);
    case Priority(PriorityOp(_, FullExitRequest(e))) => FullExitConserves(s, e);
    case Transaction(TransferTx(t)) => TransferMovesToken(s, t);
    case Transaction(WithdrawTx(w)) => WithdrawConserves(s, w);
    case Transaction(ChangePubKeyTx(p)) => ChangePubKeyConserves(s, p);
  }

  /** A deposit keeps ownership unique exactly when no other account holds the token. */
  lemma DepositKeepsSoleOwners(s: State, d: Deposit)
    requires Inv(s) && SoleOwners(s) && ExecuteDeposit(s, d).Done?
    ensures SoleOwners(ExecuteDeposit(s, d).value.state) <==>
            forall j | j in s.accounts && d.token in s.accounts[j].tokens :: s.accounts[j].address == d.to
  {
    var id := Slot(s, d.to);
    var account := if d.to in s.index then s.accounts[id] else NewAccount(d.to);
    var after := ExecuteDeposit(s, d).value.state;
    assert after == Insert(s, id, WithToken(account, d.token));
    if forall j | j in s.accounts && d.token in s.accounts[j].tokens :: s.accounts[j].address == d.to {
      Rewrite(s, id, WithToken(account, d.token));
    } else {
      var j :| j in s.accounts && d.token in s.accounts[j].tokens && s.accounts[j].address != d.to;
      assert j != id && d.token in after.accounts[j].tokens && d.token in after.accounts[id].tokens;
    }
  }

  // ---------- Runs ----------

  predicate FreshDeposits(s: State, items: seq<Item>) {
    items == [] ||
    (&& FreshDeposits(s, items[..|items| - 1])
     && FreshDeposit(RunAll(s, items[..|items| - 1]).state, items[|items| - 1]))
  }

  function Inflow(done: seq<Effect>): multiset<TokenId> {
    if done == [] then multiset{}
    else Inflow(done[..|done| - 1]) + multiset(Arriving(done[|done| - 1]))
  }

  function Outflow(done: seq<Effect>): multiset<TokenId> {
    if done == [] then multiset{}
    else Outflow(done[..|done| - 1]) + multiset(Leaving(done[|done| - 1]))
  }

  lemma StepConserves(r: Run, item: Item)
    requires Inv(r.state) && SoleOwners(r.state) && FreshDeposit(r.state, item)
    ensures SoleOwners(Step(r, item).state)
    ensures multiset(Held(r.state)) + Inflow(Step(r, item).done) + Outflow(r.done) ==
            multiset(Held(Step(r, item).state)) + Outflow(Step(r, item).done) + Inflow(r.done)
  {
    if !r.halted && Execute(r.state, item).Done? {
      ExecuteConserves(r.state, item);
      hide Execute, Held, SoleOwners, Inv;
      assert Step(r, item).done[..|r.done|] == r.done;
    }
  }

  lemma Cancel(held: multiset<TokenId>, arrived: multiset<TokenId>, left: multiset<TokenId>,
               held1: multiset<TokenId>, arrived1: multiset<TokenId>, left1: multiset<TokenId>,
               start: multiset<TokenId>)
    requires start + arrived == held + left
    requires held + arrived1 + left == held1 + left1 + arrived
    ensures start + arrived1 == held1 + left1
  {
    forall x
      ensures (start + arrived1)[x] == (held1 + left1)[x]
    {
      assert (start + arrived)[x] == (held + left)[x];
      assert (held + arrived1 + left)[x] == (held1 + left1 + arrived)[x];
    }
  }

  lemma {:induction false} TokensConserved(s: State, items: seq<Item>)
    requires Inv(s) && SoleOwners(s) && FreshDeposits(s, items)
    ensures SoleOwners(RunAll(s, items).state)
    ensures multiset(Held(s)) + Inflow(RunAll(s, items).done) ==
            multiset(Held(RunAll(s, items).state)) + Outflow(RunAll(s, items).done)
  {
    hide Step, Inv, Extends, SoleOwners, Held, FreshDeposit;
    if items != [] {
      TokensConserved(s, items[..|items| - 1]);
      RunKeepsInv(s, items[..|items| - 1]);
      var before, after := RunAll(s, items[..|items| - 1]), RunAll(s, items);
      StepConserves(before, items[|items| - 1]);
      Cancel(multiset(Held(before.state)), Inflow(before.done), Outflow(before.done),
             multiset(Held(after.state)), Inflow(after.done), Outflow(after.done), multiset(Held(s)));
    }
  }

  // ---------- Which ledgers have a root hash ----------

  /** The token subtree of an account has room for the ids below `TOTAL_TOKENS`; hashing any other aborts. */
  ghost predicate Hashable(s: State) {
    forall id, t | id in s.accounts && t in s.accounts[id].tokens :: t < TOTAL_TOKENS
  }

  /** Deposits, unlike transactions, are executed whatever their token id. */
  predicate BigDeposit(item: Item) {
    item.Priority? && item.request.data.DepositRequest? && item.request.data.deposit.token >= TOTAL_TOKENS
  }

  lemma WriteHashable(s: State, id: AccountId, account: Account)
    requires Hashable(s)
    ensures Hashable(Insert(s, id, account)) <==> forall t | t in account.tokens :: t < TOTAL_TOKENS
  {
    var after := Insert(s, id, account);
    assert after.accounts[id] == account;
  }

  lemma DepositHashable(s: State, d: Deposit)
    requires Inv(s) && Hashable(s) && ExecuteDeposit(s, d).Done?
    ensures Hashable(ExecuteDeposit(s, d).value.state) <==> d.token < TOTAL_TOKENS
  {
    DepositShape(s, d);
    hide Inv, ExecuteDeposit;
    var id := Slot(s, d.to);
    var account := if d.to in s.index then s.accounts[id] else NewAccount(d.to);
    assert d.token in WithToken(account, d.token).tokens;
    WriteHashable(s, id, WithToken(account, d.token));
  }

  lemma TransferHashable(s: State, t: Transfer)
    requires Inv(s) && Hashable(s) && ExecuteTransfer(s, t).Done?
    ensures Hashable(ExecuteTransfer(s, t).value.state)
  {
    hide Inv, ExecuteTransfer;
    TransferShape(s, t);
    var from, to := s.index[t.from], Slot(s, t.to);
    var account := s.accounts[from];
    WriteHashable(s, from, account.(nonce := account.nonce + 1));
    WriteHashable(s, from, Spent(account, t.token));
    var target := if t.to in s.index then s.accounts[to] else NewAccount(t.to);
    WriteHashable(Insert(s, from, Spent(account, t.token)), to, WithToken(target, t.token));
  }

  lemma ExecuteKeepsHashable(s: State, item: Item)
    requires Inv(s) && Hashable(s) && Execute(s, item).Done?
    ensures Hashable(Execute(s, item).value.state) <==> !BigDeposit(item)
  {
    hide Inv, Hashable, ExecuteDeposit, ExecuteTransfer, ExecuteWithdraw, ExecuteChangePubKey;
    match item
    case Priority(PriorityOp(_, DepositRequest(d))) => DepositHashable(s, d);
    case Priority(PriorityOp(_, FullExitRequest(e))) =>
      WriteHashable(s, e.accountId, s.accounts[e.accountId].(tokens := {}));
    case Transaction(TransferTx(t)) => TransferHashable(s, t);
    case Transaction(WithdrawTx(w)) =>
      WithdrawShape(s, w);
      SpendHashable(s, s.index[w.from], Spent(s.accounts[s.index[w.from]], w.token));
    case Transaction(ChangePubKeyTx(p)) =>
      ChangePubKeyShape(s, p);
      var account := s.accounts[s.index[p.account]];
      SpendHashable(s, s.index[p.account], account.(nonce := account.nonce + 1, pubKeyHash := p.newPubKeyHash));
  }

  lemma SpendHashable(s: State, id: AccountId, account: Account)
    requires Hashable(s) && id in s.accounts && account.tokens <= s.accounts[id].tokens
    ensures Hashable(Insert(s, id, account))
  {
    WriteHashable(s, id, account);
  }

  predicate NoBigDeposit(items: seq<Item>) {
    forall i | 0 <= i < |items| :: !BigDeposit(items[i])
  }

  ghost predicate AlwaysHashable(s: State, items: seq<Item>) {
    forall k | 0 <= k <= |items| :: Hashable(RunAll(s, items[..k]).state)
  }

  /** A run passes only through ledgers that have a root hash if and only if it takes no deposit of a token id
      that is too big. */
  lemma {:induction false} HashableExactly(s: State, items: seq<Item>)
    requires Inv(s) && Hashable(s) && !RunAll(s, items).halted
    ensures AlwaysHashable(s, items) <==> NoBigDeposit(items)
  {
    hide Inv, Extends, Execute, Hashable, AlwaysHashable, BigDeposit, NoBigDeposit;
    if items == [] {
      NothingTaken(s);
    } else {
      var init, last := items[..|items| - 1], items[|items| - 1];
      var before := RunAll(s, init);
      HashableExactly(s, init);
      RunKeepsInv(s, init);
      AlwaysOneMore(s, items);
      if AlwaysHashable(s, init) {
        if Execute(before.state, last).Done? {
          ExecuteKeepsHashable(before.state, last);
        } else {
          RefusedIsSmall(before, last);
        }
      }
    }
  }

  lemma NothingTaken(s: State)
    requires Hashable(s)
    ensures AlwaysHashable(s, []) && NoBigDeposit([])
  {
  }

  lemma AlwaysOneMore(s: State, items: seq<Item>)
    requires items != []
    ensures var init := items[..|items| - 1];
            && (AlwaysHashable(s, items) <==> AlwaysHashable(s, init) && Hashable(RunAll(s, items).state))
            && (AlwaysHashable(s, init) ==> Hashable(RunAll(s, init).state))
            && (NoBigDeposit(items) <==> NoBigDeposit(init) && !BigDeposit(items[|items| - 1]))
  {
    hide Hashable, RunAll, BigDeposit;
    var init := items[..|items| - 1];
    assert items[..|items|] == items && init[..|init|] == init;
    assert forall k | 0 <= k <= |init| :: items[..k] == init[..k];
  }

  lemma RefusedIsSmall(r: Run, item: Item)
    requires !Execute(r.state, item).Done? && !r.halted && !Step(r, item).halted
    ensures !BigDeposit(item) && Step(r, item).state == r.state
  {
  }

  /** One deposit after which the ledger has no root hash. */
  lemma DepositWithoutRoot() returns (s: State, item: Item)
    ensures Inv(s) && Hashable(s) && Execute(s, item).Done? && !Hashable(Execute(s, item).value.state)
  {
    s := State(map[0 := Account(7, 0, 1, {3})], map[7 := 0]);
    item := Priority(PriorityOp(0, DepositRequest(Deposit(7, 300, 7))));
    ExecuteKeepsHashable(s, item);
  }
}
