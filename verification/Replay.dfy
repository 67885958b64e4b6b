/** Rebuilding accounts from the update log, as start-up and the mempool do.
    The log misses self-transfers: exactly the accounts whose last change was one lag behind. */
module Replay {
  import opened Types
  import opened Ledger
  import opened LedgerRuns

  function ApplyUpdate(account: Option<Account>, u: AccountUpdate): Option<Account> {
    match account
    case Some(a) => (
      match u
      case Delete(_, _) => None
      case AddToken(_, n, t) => Some(a.(tokens := a.tokens + {t}, nonce := n))
      case RemoveToken(_, n, t) => Some(a.(tokens := a.tokens - {t}, nonce := n))
      case ChangePubKeyHash(_, k, _, n) => Some(a.(pubKeyHash := k, nonce := n))
      case Create(_, _) => Some(a))
    case None =>
      if u.Create? then Some(NewAccount(u.address).(nonce := u.nonce)) else None
  }

  function Get<K, V>(m: map<K, V>, k: K): Option<V> {
    if k in m then Some(m[k]) else None
  }

  /** Take the account out of the tree and the index, update it, and put it back if anything is left. */
  function ReplayOne(s: State, id: AccountId, u: AccountUpdate): State {
    match ApplyUpdate(Get(s.accounts, id), u)
    case Some(a) => Insert(Remove(s, id), id, a)
    case None => Remove(s, id)
  }

  function ReplayAll(s: State, us: Updates): State {
    if us == [] then s
    else ReplayOne(ReplayAll(s, us[..|us| - 1]), us[|us| - 1].0, us[|us| - 1].1)
  }

  lemma {:induction false} ReplayConcat(s: State, us: Updates, vs: Updates)
    ensures ReplayAll(s, us + vs) == ReplayAll(ReplayAll(s, us), vs)
  {
    if vs == [] {
      assert us + vs == us;
    } else {
      var n := |vs| - 1;
      assert (us + vs)[..|us + vs| - 1] == us + vs[..n];
      ReplayConcat(s, us, vs[..n]);
    }
  }

  // ---------- How far a rebuilt ledger lags ----------

  /** `r` is `s` but for older nonces on the stale accounts; the index is the same. */
  ghost predicate Lags(r: State, s: State, stale: set<AccountId>) {
    && r.index == s.index
    && r.accounts.Keys == s.accounts.Keys
    && stale <= s.accounts.Keys
    && (forall id | id in s.accounts && id !in stale :: r.accounts[id] == s.accounts[id])
    && (forall id | id in stale ::
          && r.accounts[id] == s.accounts[id].(nonce := r.accounts[id].nonce)
          && r.accounts[id].nonce < s.accounts[id].nonce)
  }

  predicate IsSelfTransfer(op: FranklinOp) {
    op.TransferOp? && op.from == op.to
  }

  predicate AllSelfTransfers(done: seq<Effect>) {
    forall i | 0 <= i < |done| :: IsSelfTransfer(done[i].op)
  }

  /** A transaction that sends a token back to its sender. */
  predicate ToSelf(item: Item) {
    item.Transaction? && item.tx.TransferTx? && item.tx.transfer.to == item.tx.transfer.from
  }

  lemma SelfTransfersByRequest(s: State, item: Item)
    requires Inv(s) && Execute(s, item).Done?
    ensures IsSelfTransfer(Execute(s, item).value.op) <==> ToSelf(item)
  {
    hide Inv, ExecuteTransfer;
    if item.Transaction? && item.tx.TransferTx? {
      TransferShape(s, item.tx.transfer);
    }
  }

  function Touched(us: Updates): set<AccountId> {
    set u | u in us :: u.0
  }

  /** The accounts that fall behind, or catch up, when one request is executed. */
  function NextStale(stale: set<AccountId>, e: Effect): set<AccountId> {
    if IsSelfTransfer(e.op) then stale + {e.op.from} else stale - Touched(e.updates)
  }

  /** A logged write of one account brings its copy up to date. */
  lemma ReplayWrite(r: State, s: State, stale: set<AccountId>, id: AccountId, u: AccountUpdate, account: Account)
    requires Inv(s) && Lags(r, s, stale) && id in s.accounts
    requires account.address == s.accounts[id].address
    requires ApplyUpdate(Some(s.accounts[id]), u) == Some(account)
    requires u.AddToken? || u.RemoveToken? || u.ChangePubKeyHash?
    ensures Lags(ReplayOne(r, id, u), Insert(s, id, account), stale - {id})
  {
    var after := ReplayOne(r, id, u);
    assert after.accounts[id] == account;
    assert after.index == r.index;
  }

  lemma ReplayCreate(r: State, s: State, stale: set<AccountId>, address: Address)
    requires Inv(s) && Lags(r, s, stale) && address !in s.index
    ensures Lags(ReplayOne(r, |s.accounts|, Create(address, 0)), Insert(s, |s.accounts|, NewAccount(address)), stale)
  {
  }

  function Without(account: Account, tokens: seq<TokenId>): Account {
    account.(tokens := account.tokens - set t | t in tokens)
  }

  lemma ExitTouches(id: AccountId, nonce: nat, tokens: seq<TokenId>)
    ensures Touched(ExitUpdates(id, nonce, tokens)) == if tokens == [] then {} else {id}
  {
    if tokens != [] {
      assert ExitUpdates(id, nonce, tokens)[0] in ExitUpdates(id, nonce, tokens);
    }
  }

  lemma {:induction false} ReplayExit(r: State, s: State, stale: set<AccountId>, id: AccountId, tokens: seq<TokenId>)
    requires Inv(s) && Lags(r, s, stale) && id in s.accounts
    ensures var us := ExitUpdates(id, s.accounts[id].nonce, tokens);
            Lags(ReplayAll(r, us), Insert(s, id, Without(s.accounts[id], tokens)), stale - Touched(us))
  {
    hide Lags, Inv, Extends, ReplayOne, Touched;
    var account := s.accounts[id];
    var us := ExitUpdates(id, account.nonce, tokens);
    ExitTouches(id, account.nonce, tokens);
    if tokens == [] {
      assert stale - Touched(us) == stale;
      assert Without(account, tokens) == account;
      InsertSame(s, id);
      assert us == [];
    } else {
      var n := |tokens| - 1;
      var less, least := Without(account, tokens[..n]), Without(account, tokens);
      assert us[..n] == ExitUpdates(id, account.nonce, tokens[..n]);
      ReplayExit(r, s, stale, id, tokens[..n]);
      WriteKeepsInv(s, id, less);
      assert least.tokens == less.tokens - {tokens[n]};
      ReplayWrite(ReplayAll(r, us[..n]), Insert(s, id, less), stale - Touched(us[..n]), id, us[n].1, least);
      assert Insert(Insert(s, id, less), id, least) == Insert(s, id, least);
      ExitTouches(id, account.nonce, tokens[..n]);
      assert stale - Touched(us[..n]) - {id} == stale - {id};
    }
  }

  lemma InsertSame(s: State, id: AccountId)
    requires Inv(s) && id in s.accounts
    ensures Insert(s, id, s.accounts[id]) == s
  {
  }

  lemma ReplayOneByOne(s: State, us: Updates)
    ensures |us| == 1 ==> ReplayAll(s, us) == ReplayOne(s, us[0].0, us[0].1)
    ensures |us| == 2 ==> ReplayAll(s, us) == ReplayOne(ReplayOne(s, us[0].0, us[0].1), us[1].0, us[1].1)
    ensures |us| == 3 ==>
              ReplayAll(s, us) ==
              ReplayOne(ReplayOne(ReplayOne(s, us[0].0, us[0].1), us[1].0, us[1].1), us[2].0, us[2].1)
  {
    hide ReplayOne;
    if |us| == 2 {
      assert us[..1] == [us[0]];
    } else if |us| == 3 {
      assert us[..2] == [us[0], us[1]] && us[..2][..1] == [us[0]];
    }
  }

  lemma TouchedOneByOne(us: Updates)
    ensures |us| == 1 ==> Touched(us) == {us[0].0}
    ensures |us| == 2 ==> Touched(us) == {us[0].0, us[1].0}
    ensures |us| == 3 ==> Touched(us) == {us[0].0, us[1].0, us[2].0}
  {
    assert forall i | 0 <= i < |us| :: us[i] in us;
  }

  lemma ReplayDeposit(r: State, s: State, stale: set<AccountId>, d: Deposit)
    requires Inv(s) && Lags(r, s, stale) && ExecuteDeposit(s, d).Done?
    ensures var e := ExecuteDeposit(s, d).value;
            Lags(ReplayAll(r, e.updates), e.state, stale - Touched(e.updates))
  {
    hide Inv, Extends, Lags, ExecuteDeposit, ReplayOne, ReplayAll, Touched;
    DepositShape(s, d);
    var e := ExecuteDeposit(s, d).value;
    var id := Slot(s, d.to);
    ReplayOneByOne(r, e.updates);
    TouchedOneByOne(e.updates);
    if d.to in s.index {
      ReplayWrite(r, s, stale, id, e.updates[0].1, WithToken(s.accounts[id], d.token));
    } else {
      ReplayNew(r, s, stale, d.to, d.token);
      assert Touched(e.updates) == {id};
    }
  }

  lemma ReplayNew(r: State, s: State, stale: set<AccountId>, address: Address, token: TokenId)
    requires Inv(s) && Lags(r, s, stale) && address !in s.index && |s.accounts| < CAPACITY
    ensures var id := |s.accounts|;
            Lags(ReplayOne(ReplayOne(r, id, Create(address, 0)), id, AddToken(0, 0, token)),
                 Insert(s, id, WithToken(NewAccount(address), token)), stale - {id})
  {
    hide Inv, Extends, Lags, ReplayOne, Insert;
    var id, born := |s.accounts|, NewAccount(address);
    ReplayCreate(r, s, stale, address);
    InsertKeepsInv(s, born);
    InsertTwice(s, id, born, WithToken(born, token));
    ReplayWrite(ReplayOne(r, id, Create(address, 0)), Insert(s, id, born), stale, id, AddToken(0, 0, token),
                WithToken(born, token));
  }

  lemma InsertTwice(s: State, id: AccountId, first: Account, last: Account)
    requires first.address == last.address
    ensures id in Insert(s, id, first).accounts && Insert(s, id, first).accounts[id] == first
    ensures Insert(Insert(s, id, first), id, last) == Insert(s, id, last)
  {
  }

  lemma ReplayTransfer(r: State, s: State, stale: set<AccountId>, t: Transfer)
    requires Inv(s) && Lags(r, s, stale) && ExecuteTransfer(s, t).Done? && t.to != t.from && t.to in s.index
    ensures var e := ExecuteTransfer(s, t).value;
            Lags(ReplayAll(r, e.updates), e.state, stale - Touched(e.updates))
  {
    hide Inv, Extends, Lags, ExecuteTransfer, ReplayOne, ReplayAll, Touched;
    TransferShape(s, t);
    var us := ExecuteTransfer(s, t).value.updates;
    var from, to := s.index[t.from], Slot(s, t.to);
    var spent := Spent(s.accounts[from], t.token);
    ReplayOneByOne(r, us);
    TouchedOneByOne(us);
    assert stale - {from} - {to} == stale - Touched(us);
    ReplayWrite(r, s, stale, from, us[0].1, spent);
    WriteKeepsInv(s, from, spent);
    ReplayWrite(ReplayOne(r, from, us[0].1), Insert(s, from, spent), stale - {from}, to, us[1].1,
                WithToken(s.accounts[to], t.token));
  }

  lemma ReplayTransferToNew(r: State, s: State, stale: set<AccountId>, t: Transfer)
    requires Inv(s) && Lags(r, s, stale) && ExecuteTransfer(s, t).Done? && t.to !in s.index
    ensures var e := ExecuteTransfer(s, t).value;
            Lags(ReplayAll(r, e.updates), e.state, stale - Touched(e.updates))
  {
    hide Inv, Extends, Lags, ExecuteTransfer, ReplayOne, ReplayAll, Touched;
    TransferShape(s, t);
    var us := ExecuteTransfer(s, t).value.updates;
    var from, to := s.index[t.from], |s.accounts|;
    var spent, born := Spent(s.accounts[from], t.token), NewAccount(t.to);
    ReplayOneByOne(r, us);
    TouchedOneByOne(us);
    assert stale - {from} - {to} == stale - Touched(us);
    var r1, s1 := ReplayOne(r, to, us[0].1), Insert(s, to, born);
    ReplayCreate(r, s, stale, t.to);
    InsertKeepsInv(s, born);
    var r2, s2 := ReplayOne(r1, from, us[1].1), Insert(s1, from, spent);
    ReplayWrite(r1, s1, stale, from, us[1].1, spent);
    WriteKeepsInv(s1, from, spent);
    ReplayWrite(r2, s2, stale - {from}, to, us[2].1, WithToken(born, t.token));
    InsertLastWins(s, to, born, from, spent, WithToken(born, t.token));
  }

  lemma InsertLastWins(s: State, a: AccountId, first: Account, b: AccountId, other: Account, last: Account)
    requires first.address == last.address
    ensures Insert(Insert(Insert(s, a, first), b, other), a, last) == Insert(Insert(s, b, other), a, last)
  {
  }

  lemma LagMore(r: State, s: State, stale: set<AccountId>, id: AccountId)
    requires Inv(s) && Lags(r, s, stale) && id in s.accounts
    ensures Lags(r, Insert(s, id, s.accounts[id].(nonce := s.accounts[id].nonce + 1)), stale + {id})
  {
  }

  /** Replaying what one request logged keeps the rebuilt ledger behind by exactly the stale accounts. */
  lemma ReplayExecute(r: State, s: State, stale: set<AccountId>, item: Item)
    requires Inv(s) && Lags(r, s, stale) && Execute(s, item).Done?
    ensures var e := Execute(s, item).value;
            Lags(ReplayAll(r, e.updates), e.state, NextStale(stale, Effect(item, e.op, e.updates)))
  {
    hide Inv, Lags, ReplayOne, ExecuteDeposit, ExecuteTransfer, ExecuteWithdraw, ExecuteChangePubKey, ExitUpdates;
    var e := Execute(s, item).value;
    match item
    case Priority(PriorityOp(_, DepositRequest(d))) =>
      DepositShape(s, d);
      ReplayDeposit(r, s, stale, d);
    case Priority(PriorityOp(_, FullExitRequest(x))) =>
      var account := s.accounts[x.accountId];
      ReplayExit(r, s, stale, x.accountId, Ascending(account.tokens));
      assert Without(account, Ascending(account.tokens)) == account.(tokens := {});
    case Transaction(TransferTx(t)) =>
      TransferShape(s, t);
      if t.to == t.from {
        LagMore(r, s, stale, s.index[t.from]);
      } else if t.to in s.index {
        ReplayTransfer(r, s, stale, t);
      } else {
        ReplayTransferToNew(r, s, stale, t);
      }
    case Transaction(WithdrawTx(w)) =>
      WithdrawShape(s, w);
      ReplayOneByOne(r, e.updates);
      ReplayWrite(r, s, stale, s.index[w.from], e.updates[0].1, Spent(s.accounts[s.index[w.from]], w.token));
      TouchedOneByOne(e.updates);
    case Transaction(ChangePubKeyTx(p)) =>
      ChangePubKeyShape(s, p);
      ReplayOneByOne(r, e.updates);
      var account := s.accounts[s.index[p.account]];
      ReplayWrite(r, s, stale, s.index[p.account], e.updates[0].1,
                  account.(nonce := account.nonce + 1, pubKeyHash := p.newPubKeyHash));
      TouchedOneByOne(e.updates);
  }

  /** From an exact copy, what an executed request logged rebuilds the result if and only if the request is not a
      transfer to its own sender. */
  lemma ReplayIsExactForOne(s: State, item: Item)
    requires Inv(s) && Execute(s, item).Done?
    ensures var e := Execute(s, item).value;
            ReplayAll(s, e.updates) == e.state <==> !ToSelf(item)
  {
    hide Execute, Inv, ReplayOne;
    SelfTransfersByRequest(s, item);
    ReplayExecute(s, s, {}, item);
    LagsExactly(ReplayAll(s, Execute(s, item).value.updates), Execute(s, item).value.state,
                NextStale({}, Effect(item, Execute(s, item).value.op, Execute(s, item).value.updates)));
  }

  /** The two ledgers are equal exactly when nothing is stale, and an account is equal exactly when it is not stale. */
  lemma LagsExactly(r: State, s: State, stale: set<AccountId>)
    requires Lags(r, s, stale)
    ensures r == s <==> stale == {}
    ensures forall id | id in s.accounts :: r.accounts[id] == s.accounts[id] <==> id !in stale
  {
  }

  // ---------- Runs ----------

  function Log(done: seq<Effect>): Updates {
    if done == [] then [] else Log(done[..|done| - 1]) + done[|done| - 1].updates
  }

  /** The accounts whose last change was a self-transfer. */
  function Stale(done: seq<Effect>): set<AccountId> {
    if done == [] then {} else NextStale(Stale(done[..|done| - 1]), done[|done| - 1])
  }

  lemma {:induction false} ReplayOfRun(s: State, items: seq<Item>)
    requires Inv(s)
    ensures var r := RunAll(s, items);
            Lags(ReplayAll(s, Log(r.done)), r.state, Stale(r.done))
  {
    if items != [] {
      hide Inv, Extends, Lags, Execute, NextStale;
      var before, last := RunAll(s, items[..|items| - 1]), items[|items| - 1];
      ReplayOfRun(s, items[..|items| - 1]);
      RunKeepsInv(s, items[..|items| - 1]);
      if !before.halted && Execute(before.state, last).Done? {
        var e := Execute(before.state, last).value;
        ReplayExecute(ReplayAll(s, Log(before.done)), before.state, Stale(before.done), last);
        ReplayConcat(s, Log(before.done), e.updates);
        assert RunAll(s, items).done[..|before.done|] == before.done;
      }
    }
  }
}
