/** What the mempool learns from the updates it hears: exactly the accounts a start-up would rebuild from them. */
module MempoolKnowledge {
  import opened Types
  import opened Ledger
  import opened LedgerRuns
  import opened Mempool
  import R = Replay

  /** An update that makes sense for these accounts. */
  ghost predicate Usable(accounts: map<AccountId, Account>, u: (AccountId, AccountUpdate)) {
    match u.1
    case Create(address, _) => u.0 !in accounts && forall id | id in accounts :: accounts[id].address != address
    case Delete(address, _) => u.0 in accounts && accounts[u.0].address == address
    case _ => u.0 in accounts
  }

  ghost predicate AllUsable(s: State, us: Updates) {
    us == [] ||
    (&& AllUsable(s, us[..|us| - 1])
     && Usable(R.ReplayAll(s, us[..|us| - 1]).accounts, us[|us| - 1]))
  }

  // ---------- One account written or taken out ----------

  /** The account's own address, or one that no other account has. */
  ghost predicate Writable(accounts: map<AccountId, Account>, id: AccountId, address: Address) {
    forall j | j in accounts :: accounts[j].address == address <==> j == id
  }

  lemma OwnAddress(accounts: map<AccountId, Account>, id: AccountId)
    requires Distinct(accounts) && id in accounts
    ensures Writable(accounts, id, accounts[id].address)
  {
  }

  lemma WriteDistinct(accounts: map<AccountId, Account>, id: AccountId, account: Account)
    requires Distinct(accounts) && Writable(accounts, id, account.address)
    ensures Distinct(accounts[id := account])
  {
  }

  lemma WriteNonces(nonces: map<Address, nat>, accounts: map<AccountId, Account>, id: AccountId, account: Account)
    requires KnowsNonces(nonces, accounts) && Writable(accounts, id, account.address)
    ensures KnowsNonces(nonces[account.address := account.nonce], accounts[id := account])
  {
  }

  lemma WriteStrangers(known: set<Address>, accounts: map<AccountId, Account>, id: AccountId, account: Account)
    requires NoStrangers(known, accounts) && Writable(accounts, id, account.address)
    ensures NoStrangers(known + {account.address}, accounts[id := account])
  {
    var next := accounts[id := account];
    forall a | a in known + {account.address} ensures exists j :: HasAddress(next, j, a) {
      if a == account.address {
        assert HasAddress(next, id, a);
      } else {
        var j :| HasAddress(accounts, j, a);
        assert HasAddress(next, j, a);
      }
    }
  }

  lemma WriteKnown(pool: Pool, accounts: map<AccountId, Account>, id: AccountId, account: Account)
    requires Knows(pool, accounts) && Distinct(accounts) && Writable(accounts, id, account.address)
    ensures Knows(pool.(ids := pool.ids[id := account.address],
                        nonces := pool.nonces[account.address := account.nonce]),
                  accounts[id := account])
    ensures Distinct(accounts[id := account])
  {
    hide Distinct, KnowsNonces, NoStrangers, Writable;
    WriteDistinct(accounts, id, account);
    WriteNonces(pool.nonces, accounts, id, account);
    WriteStrangers(pool.nonces.Keys, accounts, id, account);
    assert pool.nonces[account.address := account.nonce].Keys == pool.nonces.Keys + {account.address};
  }

  lemma DeleteKnown(pool: Pool, accounts: map<AccountId, Account>, id: AccountId)
    requires Knows(pool, accounts) && Distinct(accounts) && id in accounts
    ensures Knows(pool.(ids := pool.ids - {id}, nonces := pool.nonces - {accounts[id].address}), accounts - {id})
    ensures Distinct(accounts - {id})
  {
    OwnAddress(accounts, id);
    var next, nonces := accounts - {id}, pool.nonces - {accounts[id].address};
    assert Distinct(next);
    hide Distinct;
    forall a | a in nonces ensures exists j :: HasAddress(next, j, a) {
      var j :| HasAddress(accounts, j, a);
      assert HasAddress(next, j, a);
    }
  }

  lemma KnownByIds(pool: Pool, accounts: map<AccountId, Account>, id: AccountId, nonce: nat)
    requires Knows(pool, accounts) && id in accounts
    ensures SetNonce(pool, id, nonce) ==
            pool.(ids := pool.ids[id := accounts[id].address], nonces := pool.nonces[accounts[id].address := nonce])
  {
    hide NoStrangers;
    assert pool.ids[id := accounts[id].address] == pool.ids;
  }

  lemma Rebuilds(s: State, u: (AccountId, AccountUpdate))
    requires Usable(s.accounts, u)
    ensures R.ReplayOne(s, u.0, u.1).accounts ==
            (match u.1
             case Create(address, nonce) => s.accounts[u.0 := NewAccount(address).(nonce := nonce)]
             case Delete(_, _) => s.accounts - {u.0}
             case _ => s.accounts[u.0 := R.ApplyUpdate(Some(s.accounts[u.0]), u.1).value])
  {
  }

  /** One update teaches the mempool the account it rebuilds. */
  lemma HearOne(pool: Pool, s: State, u: (AccountId, AccountUpdate))
    requires Knows(pool, s.accounts) && Distinct(s.accounts) && Usable(s.accounts, u)
    ensures Knows(Hear(pool, u.0, u.1), R.ReplayOne(s, u.0, u.1).accounts)
    ensures Distinct(R.ReplayOne(s, u.0, u.1).accounts)
  {
    hide Knows, Distinct, R.ReplayOne, SetNonce, Writable;
    Rebuilds(s, u);
    match u.1
    case Create(address, nonce) =>
      NewIsWritable(s.accounts, u.0, address);
      WriteKnown(pool, s.accounts, u.0, NewAccount(address).(nonce := nonce));
    case Delete(_, _) => DeleteKnown(pool, s.accounts, u.0);
    case _ =>
      var account := R.ApplyUpdate(Some(s.accounts[u.0]), u.1).value;
      OwnAddress(s.accounts, u.0);
      WriteKnown(pool, s.accounts, u.0, account);
      KnownByIds(pool, s.accounts, u.0, account.nonce);
  }

  lemma NewIsWritable(accounts: map<AccountId, Account>, id: AccountId, address: Address)
    requires id !in accounts && forall j | j in accounts :: accounts[j].address != address
    ensures Writable(accounts, id, address)
  {
  }

  lemma {:induction false} HearReplays(pool: Pool, s: State, us: Updates)
    requires Knows(pool, s.accounts) && Distinct(s.accounts) && AllUsable(s, us)
    ensures Knows(HearAll(pool, us), R.ReplayAll(s, us).accounts) && Distinct(R.ReplayAll(s, us).accounts)
  {
    if us != [] {
      hide Knows, Distinct, Usable, Hear, R.ReplayOne;
      var n := |us| - 1;
      HearReplays(pool, s, us[..n]);
      HearOne(HearAll(pool, us[..n]), R.ReplayAll(s, us[..n]), us[n]);
    }
  }

  // ---------- What requests log is usable ----------

  lemma AlikeUsable(r: State, s: State, stale: set<AccountId>, u: (AccountId, AccountUpdate))
    requires R.Lags(r, s, stale) && Usable(s.accounts, u)
    ensures Usable(r.accounts, u)
  {
  }

  /** A rebuilt ledger has the accounts and addresses of the ledger it lags behind. */
  lemma LaggingDistinct(r: State, s: State, stale: set<AccountId>)
    requires Inv(s) && R.Lags(r, s, stale)
    ensures Distinct(r.accounts)
  {
    forall i, j | i in r.accounts && j in r.accounts && r.accounts[i].address == r.accounts[j].address ensures i == j {
      assert s.index[s.accounts[i].address] == i && s.index[s.accounts[j].address] == j;
    }
  }

  lemma NewAddress(s: State, address: Address)
    requires Inv(s) && address !in s.index
    ensures Usable(s.accounts, (|s.accounts|, Create(address, 0)))
  {
  }

  lemma UsableOneByOne(s: State, us: Updates)
    ensures |us| == 1 ==> (AllUsable(s, us) <==> Usable(s.accounts, us[0]))
    ensures |us| == 2 ==>
              (AllUsable(s, us) <==>
               Usable(s.accounts, us[0]) && Usable(R.ReplayOne(s, us[0].0, us[0].1).accounts, us[1]))
    ensures |us| == 3 ==>
              (AllUsable(s, us) <==>
               && Usable(s.accounts, us[0]) && Usable(R.ReplayOne(s, us[0].0, us[0].1).accounts, us[1])
               && Usable(R.ReplayOne(R.ReplayOne(s, us[0].0, us[0].1), us[1].0, us[1].1).accounts, us[2]))
  {
    hide Usable, R.ReplayOne;
    if |us| == 1 {
      assert us[..0] == [];
    } else if |us| == 2 {
      assert us[..1] == [us[0]] && us[..1][..0] == [];
    } else if |us| == 3 {
      assert us[..2] == [us[0], us[1]] && us[..2][..1] == [us[0]] && us[..2][..1][..0] == [];
    }
  }

  lemma KeysAfter(s: State, u: (AccountId, AccountUpdate))
    requires Usable(s.accounts, u) && !u.1.Delete?
    ensures R.ReplayOne(s, u.0, u.1).accounts.Keys == s.accounts.Keys + {u.0}
  {
  }

  lemma {:induction false} ExitUsable(s: State, id: AccountId, nonce: nat, tokens: seq<TokenId>)
    requires id in s.accounts
    ensures var us := ExitUpdates(id, nonce, tokens);
            AllUsable(s, us) && R.ReplayAll(s, us).accounts.Keys == s.accounts.Keys
  {
    if tokens != [] {
      hide R.ReplayOne;
      var n := |tokens| - 1;
      var us := ExitUpdates(id, nonce, tokens);
      assert us[..n] == ExitUpdates(id, nonce, tokens[..n]);
      ExitUsable(s, id, nonce, tokens[..n]);
      KeysAfter(R.ReplayAll(s, us[..n]), us[n]);
    }
  }

  lemma DepositUsable(r: State, s: State, stale: set<AccountId>, d: Deposit)
    requires Inv(s) && R.Lags(r, s, stale) && ExecuteDeposit(s, d).Done?
    ensures AllUsable(r, ExecuteDeposit(s, d).value.updates)
  {
    hide Inv, R.Lags, ExecuteDeposit, R.ReplayOne, Extends, AllUsable;
    DepositShape(s, d);
    var us := ExecuteDeposit(s, d).value.updates;
    UsableOneByOne(r, us);
    if d.to !in s.index {
      NewAddress(s, d.to);
      AlikeUsable(r, s, stale, us[0]);
      KeysAfter(r, us[0]);
    } else {
      AlikeUsable(r, s, stale, us[0]);
    }
  }

  lemma TransferUsable(r: State, s: State, stale: set<AccountId>, t: Transfer)
    requires Inv(s) && R.Lags(r, s, stale) && ExecuteTransfer(s, t).Done?
    ensures AllUsable(r, ExecuteTransfer(s, t).value.updates)
  {
    hide Inv, R.Lags, ExecuteTransfer, R.ReplayOne, Extends;
    TransferShape(s, t);
    var us := ExecuteTransfer(s, t).value.updates;
    if us != [] {
      hide AllUsable;
      UsableOneByOne(r, us);
      var from := (s.index[t.from], us[if t.to in s.index then 0 else 1].1);
      AlikeUsable(r, s, stale, from);
      if t.to in s.index {
        AlikeUsable(r, s, stale, us[1]);
      } else {
        NewAddress(s, t.to);
        AlikeUsable(r, s, stale, us[0]);
        KeysAfter(r, us[0]);
      }
      KeysAfter(r, us[0]);
      KeysAfter(R.ReplayOne(r, us[0].0, us[0].1), us[1]);
    }
  }

  lemma ExecuteUsable(r: State, s: State, stale: set<AccountId>, item: Item)
    requires Inv(s) && R.Lags(r, s, stale) && Execute(s, item).Done?
    ensures AllUsable(r, Execute(s, item).value.updates)
  {
    hide Inv, R.Lags, ExecuteDeposit, ExecuteTransfer, ExecuteWithdraw, ExecuteChangePubKey, R.ReplayOne, Extends,
         AllUsable;
    var us := Execute(s, item).value.updates;
    match item
    case Priority(PriorityOp(_, DepositRequest(d))) => DepositUsable(r, s, stale, d);
    case Priority(PriorityOp(_, FullExitRequest(e))) =>
      AlikeUsable(r, s, stale, (e.accountId, AddToken(0, 0, 0)));
      ExitUsable(r, e.accountId, s.accounts[e.accountId].nonce, Ascending(s.accounts[e.accountId].tokens));
    case Transaction(TransferTx(t)) => TransferUsable(r, s, stale, t);
    case Transaction(WithdrawTx(w)) =>
      WithdrawShape(s, w);
      UsableOneByOne(r, us);
      AlikeUsable(r, s, stale, us[0]);
    case Transaction(ChangePubKeyTx(p)) =>
      ChangePubKeyShape(s, p);
      UsableOneByOne(r, us);
      AlikeUsable(r, s, stale, us[0]);
  }

  // ---------- Runs ----------

  /** From the accounts a run started with, what the mempool hears of the run teaches it exactly the accounts that
      replaying the run's log rebuilds. */
  lemma {:induction false} HearsWhatReplays(pool: Pool, s: State, items: seq<Item>)
    requires Inv(s) && Knows(pool, s.accounts)
    ensures var log := R.Log(RunAll(s, items).done);
            Knows(HearAll(pool, log), R.ReplayAll(s, log).accounts)
  {
    if items != [] {
      hide Inv, Extends, Knows, Distinct, Execute, AllUsable, R.Lags, R.Stale;
      var init, last := items[..|items| - 1], items[|items| - 1];
      var before := RunAll(s, init);
      HearsWhatReplays(pool, s, init);
      if !before.halted && Execute(before.state, last).Done? {
        var e := Execute(before.state, last).value;
        var log := R.Log(before.done);
        var r := R.ReplayAll(s, log);
        RunKeepsInv(s, init);
        R.ReplayOfRun(s, init);
        LaggingDistinct(r, before.state, R.Stale(before.done));
        ExecuteUsable(r, before.state, R.Stale(before.done), last);
        HearReplays(HearAll(pool, log), r, e.updates);
        HearConcat(pool, log, e.updates);
        R.ReplayConcat(s, log, e.updates);
        assert RunAll(s, items).done[..|before.done|] == before.done;
      }
    }
  }

  /** So the mempool knows every account of the ledger and no other, and its nonce is the ledger's but for accounts last
      changed by a self-transfer, for which it is lower. */
  lemma KnowsLedger(pool: Pool, s: State, items: seq<Item>)
    requires Inv(s) && Knows(pool, s.accounts)
    ensures var run := RunAll(s, items);
            LearntFrom(HearAll(pool, R.Log(run.done)), run.state, R.Stale(run.done))
  {
    hide Inv, RunAll;
    var run := RunAll(s, items);
    HearsWhatReplays(pool, s, items);
    R.ReplayOfRun(s, items);
    RunKeepsInv(s, items);
    LaggingKnown(HearAll(pool, R.Log(run.done)), R.ReplayAll(s, R.Log(run.done)), run.state, R.Stale(run.done));
  }

  ghost predicate LearntFrom(pool: Pool, s: State, stale: set<AccountId>) {
    && pool.nonces.Keys == s.index.Keys
    && (forall a | a in s.index :: s.index[a] in s.accounts && pool.nonces[a] <= s.accounts[s.index[a]].nonce)
    && (forall a | a in s.index ::
          s.index[a] in s.accounts && (pool.nonces[a] == s.accounts[s.index[a]].nonce <==> s.index[a] !in stale))
  }

  lemma AddressKnown(pool: Pool, r: State, s: State, stale: set<AccountId>, a: Address)
    requires Inv(s) && R.Lags(r, s, stale) && Knows(pool, r.accounts)
    ensures a in pool.nonces <==> a in s.index
    ensures a in s.index ==> s.index[a] in r.accounts && pool.nonces[a] == r.accounts[s.index[a]].nonce
  {
    hide Dense;
    if a in s.index {
      assert r.accounts[s.index[a]].address == s.accounts[s.index[a]].address == a;
    }
    if a in pool.nonces {
      var id :| HasAddress(r.accounts, id, a);
      assert s.accounts[id].address == a && a in s.index;
    }
  }

  lemma LaggingKnown(pool: Pool, r: State, s: State, stale: set<AccountId>)
    requires Inv(s) && R.Lags(r, s, stale) && Knows(pool, r.accounts)
    ensures LearntFrom(pool, s, stale)
  {
    hide Inv, Knows;
    forall a
      ensures a in pool.nonces <==> a in s.index
      ensures a in s.index ==> s.index[a] in r.accounts && pool.nonces[a] == r.accounts[s.index[a]].nonce
    {
      AddressKnown(pool, r, s, stale, a);
    }
  }
}
