/** What a restart forgets: the block that was not sealed, and the nonces spent by self-transfers, which the update log
    does not hold. So signed transactions can be executed a second time, and exactly these. */
module Restarts {
  import opened Types
  import opened Ledger
  import opened LedgerRuns
  import opened Nonces
  import opened Keeper
  import opened KeeperBlocks
  import R = Replay

  /** The ledger after a run, rebuilt from what the run logged. */
  function Rebuilt(s: State, items: seq<Item>): State {
    R.ReplayAll(s, R.Log(RunAll(s, items).done))
  }

  /** Transaction `i` executed before a restart is executed again as number `j` after it. */
  predicate Again(s: State, items: seq<Item>, i: nat, more: seq<Item>, j: nat, address: Address) {
    var done, later := RunAll(s, items).done, RunAll(Rebuilt(s, items), more).done;
    i < |done| && j < |later| && SentBy(done[i].item, address) && later[j].item == done[i].item
  }

  lemma LagsInv(r: State, s: State, stale: set<AccountId>)
    requires R.Lags(r, s, stale) && Inv(s)
    ensures Inv(r)
    ensures forall a | a in s.index :: NonceOf(r, a) <= NonceOf(s, a)
    ensures forall a | a in s.index && s.index[a] !in stale :: NonceOf(r, a) == NonceOf(s, a)
  {
    assert |r.accounts.Keys| == |s.accounts.Keys|;
    assert |r.accounts| == |r.accounts.Keys| && |s.accounts| == |s.accounts.Keys|;
    forall id | id in s.accounts
      ensures r.accounts[id].address == s.accounts[id].address && r.accounts[id].nonce <= s.accounts[id].nonce
    {
      if id in stale {
        assert r.accounts[id] == s.accounts[id].(nonce := r.accounts[id].nonce);
      }
    }
    assert forall id: nat :: id in r.accounts <==> id < |r.accounts|;
  }

  // ---------- Not stale: nothing is executed again ----------

  lemma {:induction false} NoncesFromStart(s: State, items: seq<Item>, j: nat)
    requires Inv(s) && j < |RunAll(s, items).done| && RunAll(s, items).done[j].item.Transaction?
    ensures var tx := RunAll(s, items).done[j].item.tx; NonceOf(s, tx.Sender()) <= tx.Nonce()
  {
    hide Inv, Execute, Extends, NonceOf;
    var init, last := items[..|items| - 1], items[|items| - 1];
    var before := RunAll(s, init);
    if j < |before.done| {
      assert RunAll(s, items).done[j] == before.done[j];
      NoncesFromStart(s, init, j);
    } else {
      RunKeepsInv(s, init);
      ExecuteSpendsNonce(before.state, last, last.tx.Sender());
      NoncesAreConsecutive(s, init, last.tx.Sender());
    }
  }

  lemma FreshIsNotRepeated(s: State, items: seq<Item>, i: nat, more: seq<Item>, j: nat, address: Address)
    requires Inv(s) && Again(s, items, i, more, j, address)
    ensures var state := RunAll(s, items).state;
            address in state.index && state.index[address] in R.Stale(RunAll(s, items).done)
  {
    hide Inv, RunAll, NonceOf, R.Lags, R.ReplayAll, R.Log, R.Stale;
    var state, r := RunAll(s, items).state, Rebuilt(s, items);
    R.ReplayOfRun(s, items);
    RunKeepsInv(s, items);
    LagsInv(r, state, R.Stale(RunAll(s, items).done));
    SpentNonceIsPast(s, items, i);
    NoncesFromStart(r, more, j);
    KnownByNonce(state, address);
  }

  lemma KnownByNonce(s: State, address: Address)
    requires NonceOf(s, address) > 0
    ensures address in s.index
  {
  }

  // ---------- Stale: something is ----------

  /** A self-transfer looks only at the account of its sender. */
  lemma OnlySenderMatters(r: State, s: State, t: Transfer)
    requires t.to == t.from && t.from in r.index && t.from in s.index && r.index[t.from] == s.index[t.from]
    requires var id := s.index[t.from]; id in r.accounts && id in s.accounts && r.accounts[id] == s.accounts[id]
    ensures ExecuteTransfer(r, t).Done? <==> ExecuteTransfer(s, t).Done?
  {
    hide Insert;
  }

  lemma {:induction false} UntouchedStays(r: State, us: Updates, id: AccountId)
    requires id in r.accounts && id !in R.Touched(us)
    ensures id in R.ReplayAll(r, us).accounts && R.ReplayAll(r, us).accounts[id] == r.accounts[id]
  {
    if us != [] {
      var n := |us| - 1;
      assert us[n] in us && us[n].0 in R.Touched(us);
      assert R.Touched(us[..n]) <= R.Touched(us);
      UntouchedStays(r, us[..n], id);
      hide R.ReplayAll, R.Touched, R.ApplyUpdate;
    }
  }

  /** An executed self-transfer of the account that the rebuilt ledger would execute. */
  predicate Repeatable(done: seq<Effect>, r: State, id: AccountId, i: nat) {
    && i < |done| && R.ToSelf(done[i].item)
    && var t := done[i].item.tx.transfer;
       t.from in r.index && r.index[t.from] == id && id in r.accounts && ExecuteTransfer(r, t).Done?
  }

  lemma StaysRepeatable(done: seq<Effect>, e: Effect, r: State, next: State, id: AccountId, i: nat)
    requires Repeatable(done, r, id, i)
    requires id in next.accounts && next.accounts[id] == r.accounts[id]
    requires forall a | a in r.index :: a in next.index && next.index[a] == r.index[a]
    ensures Repeatable(done + [e], next, id, i)
  {
    hide ExecuteTransfer;
    assert (done + [e])[i] == done[i];
    OnlySenderMatters(r, next, done[i].item.tx.transfer);
  }

  lemma BecomesRepeatable(done: seq<Effect>, s: State, r: State, stale: set<AccountId>, item: Item)
    requires Inv(s) && R.Lags(r, s, stale) && Execute(s, item).Done?
    requires var op := Execute(s, item).value.op; R.IsSelfTransfer(op) && op.from !in stale
    ensures var e := Execute(s, item).value;
            Repeatable(done + [Effect(item, e.op, e.updates)], r, e.op.from, |done|)
  {
    hide Inv, ExecuteTransfer, Extends;
    R.SelfTransfersByRequest(s, item);
    var t := item.tx.transfer;
    TransferShape(s, t);
    OnlySenderMatters(r, s, t);
  }

  lemma {:induction false} StaleIsRepeatable(s: State, items: seq<Item>, id: AccountId)
    requires Inv(s) && id in R.Stale(RunAll(s, items).done)
    ensures exists i: nat :: Repeatable(RunAll(s, items).done, Rebuilt(s, items), id, i)
  {
    hide Inv, Extends, Execute, R.Lags, R.ReplayAll, Repeatable, R.IsSelfTransfer, R.Touched;
    var init, last := items[..|items| - 1], items[|items| - 1];
    var before, r := RunAll(s, init), Rebuilt(s, init);
    R.ReplayOfRun(s, init);
    RunKeepsInv(s, init);
    if before.halted || !Execute(before.state, last).Done? {
      assert RunAll(s, items).done == before.done && Rebuilt(s, items) == r;
      StaleIsRepeatable(s, init, id);
      assert exists i: nat :: Repeatable(before.done, r, id, i);
    } else {
      var e := Execute(before.state, last).value;
      var effect := Effect(last, e.op, e.updates);
      var done := before.done + [effect];
      assert RunAll(s, items).done == done && done[..|before.done|] == before.done;
      R.ReplayConcat(s, R.Log(before.done), e.updates);
      assert Rebuilt(s, items) == R.ReplayAll(r, e.updates);
      if R.IsSelfTransfer(e.op) && id !in R.Stale(before.done) {
        NothingLogged(before.state, last);
        ReplayNothing(r);
        BecomesRepeatable(before.done, before.state, r, R.Stale(before.done), last);
        assert Repeatable(done, Rebuilt(s, items), id, |before.done|);
      } else {
        StaleIsRepeatable(s, init, id);
        var i: nat :| Repeatable(before.done, r, id, i);
        StaleBefore(before.done, effect, id);
        if R.IsSelfTransfer(e.op) {
          NothingLogged(before.state, last);
        }
        NothingTouched();
        KeepsTheRest(before.state, r, R.Stale(before.done), last, id);
        StaysRepeatable(before.done, effect, r, R.ReplayAll(r, e.updates), id, i);
        assert Repeatable(done, Rebuilt(s, items), id, i);
      }
    }
  }

  lemma NothingLogged(s: State, item: Item)
    requires Inv(s) && Execute(s, item).Done? && R.IsSelfTransfer(Execute(s, item).value.op)
    ensures Execute(s, item).value.updates == []
  {
    hide Inv, ExecuteTransfer;
    R.SelfTransfersByRequest(s, item);
    TransferShape(s, item.tx.transfer);
  }

  lemma ReplayNothing(r: State)
    ensures R.ReplayAll(r, []) == r
  {
  }

  lemma NothingTouched()
    ensures R.Touched([]) == {}
  {
  }

  lemma StaleBefore(done: seq<Effect>, e: Effect, id: AccountId)
    requires id in R.Stale(done + [e]) && !(R.IsSelfTransfer(e.op) && id !in R.Stale(done))
    ensures id in R.Stale(done) && (!R.IsSelfTransfer(e.op) ==> id !in R.Touched(e.updates))
  {
    assert (done + [e])[..|done|] == done;
  }

  /** Replaying a request's updates keeps an untouched account, and every address where it is. */
  lemma KeepsTheRest(s: State, r: State, stale: set<AccountId>, item: Item, id: AccountId)
    requires Inv(s) && R.Lags(r, s, stale) && Execute(s, item).Done? && id in stale
    requires id !in R.Touched(Execute(s, item).value.updates)
    ensures var next := R.ReplayAll(r, Execute(s, item).value.updates);
            && id in next.accounts && next.accounts[id] == r.accounts[id]
            && forall a | a in r.index :: a in next.index && next.index[a] == r.index[a]
  {
    hide Inv, Execute, R.ReplayAll, R.Touched, R.NextStale;
    UntouchedStays(r, Execute(s, item).value.updates, id);
    R.ReplayExecute(r, s, stale, item);
    ExecuteKeepsInv(s, item);
  }

  lemma RunOne(s: State, item: Item)
    requires Execute(s, item).Done?
    ensures RunAll(s, [item]).done == [Effect(item, Execute(s, item).value.op, Execute(s, item).value.updates)]
  {
    hide Execute;
    assert [item][..0] == [];
    assert RunAll(s, [item]) == Step(RunAll(s, []), item);
  }

  /** Once the ledger is rebuilt from the whole log of a run, a transaction of an address can be executed a second time
      if and only if the last change of its account was a self-transfer. */
  lemma LoggedRepeatsExactly(s: State, items: seq<Item>, address: Address)
    requires Inv(s)
    ensures var state := RunAll(s, items).state;
            (exists i: nat, more: seq<Item>, j: nat :: Again(s, items, i, more, j, address)) <==>
            address in state.index && state.index[address] in R.Stale(RunAll(s, items).done)
  {
    var run, r := RunAll(s, items), Rebuilt(s, items);
    if i: nat, more: seq<Item>, j: nat :| Again(s, items, i, more, j, address) {
      FreshIsNotRepeated(s, items, i, more, j, address);
    }
    if address in run.state.index && run.state.index[address] in R.Stale(run.done) {
      hide RunAll, Execute, ExecuteTransfer, R.ReplayAll, R.Log, R.Stale;
      var id := run.state.index[address];
      StaleIsRepeatable(s, items, id);
      var i: nat :| Repeatable(run.done, r, id, i);
      R.ReplayOfRun(s, items);
      RunKeepsInv(s, items);
      var item := run.done[i].item;
      SenderOf(run.state, r, R.Stale(run.done), item.tx.transfer.from, address);
      TransferRuns(r, item);
      RunOne(r, item);
      assert Again(s, items, i, [item], 0, address);
    }
  }

  lemma TransferRuns(r: State, item: Item)
    requires R.ToSelf(item) && ExecuteTransfer(r, item.tx.transfer).Done?
    ensures Execute(r, item).Done?
  {
  }

  lemma SenderOf(s: State, r: State, stale: set<AccountId>, from: Address, address: Address)
    requires Inv(s) && R.Lags(r, s, stale) && address in s.index && from in r.index && r.index[from] == s.index[address]
    ensures from == address
  {
    assert s.accounts[s.index[from]].address == from && s.accounts[s.index[address]].address == address;
  }

  lemma OneSelfTransfer() returns (s: State, item: Item)
    ensures Inv(s) && item.Transaction? && Execute(s, item).Done? && Execute(s, item).value.updates == []
  {
    s := State(map[0 := Account(7, 0, 1, {3})], map[7 := 0]);
    item := Transaction(TransferTx(Transfer(0, 7, 7, 3, 0, 0, Some(1))));
    assert |s.accounts| == 1;
  }

  /** The same signed transfer, executed before and after a restart. */
  lemma SelfTransferRepeats() returns (s: State, item: Item)
    ensures Inv(s) && item.Transaction? && Again(s, [item], 0, [item], 0, item.tx.Sender())
  {
    hide Inv, Execute, RunAll, R.Log, R.ReplayAll;
    s, item := OneSelfTransfer();
    RunOne(s, item);
    NothingToReplay(s, RunAll(s, [item]).done[0]);
  }

  lemma NothingToReplay(s: State, e: Effect)
    requires e.updates == []
    ensures R.ReplayAll(s, R.Log([e])) == s
  {
    assert [e][..0] == [] && R.Log([]) == [];
    assert R.Log([e]) == R.Log([e][..0]) + e.updates;
  }

  // ---------- Catching up ----------

  /** An account that can send to itself. */
  predicate Able(account: Account) {
    account.pubKeyHash != NO_PUB_KEY && exists t :: t in account.tokens && t < TOTAL_TOKENS
  }

  lemma RepeatableIsAble(done: seq<Effect>, r: State, id: AccountId, i: nat)
    requires Inv(r) && Repeatable(done, r, id, i)
    ensures id in r.accounts && Able(r.accounts[id])
  {
    hide Inv;
    var t := done[i].item.tx.transfer;
    assert t.token in r.accounts[id].tokens by { TransferShape(r, t); }
    assert t.token < TOTAL_TOKENS;
  }

  /** One more self-transfer of an able account that lags brings its nonce up by one. */
  lemma CatchUpOnce(r: State, s: State, stale: set<AccountId>, id: AccountId) returns (item: Item)
    requires Inv(s) && R.Lags(r, s, stale) && id in stale && Able(r.accounts[id]) && s.accounts[id].nonce <= MAX_NONCE
    ensures Execute(r, item).Done?
    ensures Execute(r, item).value.state == Insert(r, id, r.accounts[id].(nonce := r.accounts[id].nonce + 1))
  {
    LagsInv(r, s, stale);
    var account := r.accounts[id];
    var token :| token in account.tokens && token < TOTAL_TOKENS;
    var t := Transfer(id, account.address, account.address, token, 0, account.nonce, Some(account.pubKeyHash));
    assert r.accounts[id].nonce < s.accounts[id].nonce;
    item := Transaction(TransferTx(t));
    hide Insert, R.Lags;
    assert r.index[account.address] == id;
    assert Authorize(r, t.from, t.accountId, t.signer) == Done(id);
  }

  lemma CloserByOne(r: State, s: State, stale: set<AccountId>, id: AccountId)
    requires Inv(s) && R.Lags(r, s, stale) && id in stale
    ensures var next := Insert(r, id, r.accounts[id].(nonce := r.accounts[id].nonce + 1));
            && next.accounts[id].nonce == r.accounts[id].nonce + 1
            && (forall j | j in stale && j != id :: next.accounts[j] == r.accounts[j])
            && (Able(r.accounts[id]) ==> Able(next.accounts[id]))
            && R.Lags(next, s, if next.accounts[id].nonce == s.accounts[id].nonce then stale - {id} else stale)
  {
    var next := Insert(r, id, r.accounts[id].(nonce := r.accounts[id].nonce + 1));
    assert next.index == r.index by {
      assert r.accounts[id].address == s.accounts[id].address;
      assert s.index[s.accounts[id].address] == id;
    }
  }

  ghost predicate AllAble(r: State, stale: set<AccountId>) {
    forall id | id in stale :: id in r.accounts && Able(r.accounts[id])
  }

  ghost predicate NoncesFit(s: State) {
    forall id | id in s.accounts :: s.accounts[id].nonce <= MAX_NONCE
  }

  /** How far one account lags. */
  function Gap(r: State, s: State, id: AccountId): int {
    if id in r.accounts && id in s.accounts then s.accounts[id].nonce - r.accounts[id].nonce else 0
  }

  lemma {:induction false} CatchUpOneAccount(r: State, s: State, stale: set<AccountId>, id: AccountId)
    returns (items: seq<Item>)
    requires Inv(s) && NoncesFit(s) && R.Lags(r, s, stale) && id in stale && AllAble(r, stale)
    ensures var run := RunAll(r, items);
            !run.halted && R.Lags(run.state, s, stale - {id}) && AllAble(run.state, stale - {id})
    decreases Gap(r, s, id)
  {
    var item := CatchUpOnce(r, s, stale, id);
    CloserByOne(r, s, stale, id);
    var next := Execute(r, item).value.state;
    RunOne(r, item);
    assert RunAll(r, [item]).state == next && !RunAll(r, [item]).halted by { RunOneState(r, item); }
    hide Inv, Execute, RunAll, Able;
    if next.accounts[id].nonce == s.accounts[id].nonce {
      items := [item];
    } else {
      var rest := CatchUpOneAccount(next, s, stale, id);
      items := [item] + rest;
      RunConcat(r, [item], rest);
    }
  }

  lemma RunOneState(s: State, item: Item)
    requires Execute(s, item).Done?
    ensures RunAll(s, [item]).state == Execute(s, item).value.state && !RunAll(s, [item]).halted
  {
    hide Execute;
    assert [item][..0] == [];
    assert RunAll(s, [item]) == Step(RunAll(s, []), item);
  }

  /** Self-transfers alone can bring a rebuilt ledger to the one it was rebuilt from. */
  lemma {:induction false} CatchUp(r: State, s: State, stale: set<AccountId>) returns (items: seq<Item>)
    requires Inv(s) && NoncesFit(s) && R.Lags(r, s, stale) && AllAble(r, stale)
    ensures !RunAll(r, items).halted && RunAll(r, items).state == s
    decreases |stale|
  {
    if stale == {} {
      R.LagsExactly(r, s, stale);
      items := [];
    } else {
      hide Inv, R.Lags, AllAble, RunAll, NoncesFit;
      var id :| id in stale;
      var first := CatchUpOneAccount(r, s, stale, id);
      var rest := CatchUp(RunAll(r, first).state, s, stale - {id});
      items := first + rest;
      RunConcat(r, first, rest);
    }
  }

  lemma TransferKeepsNoncesFit(s: State, t: Transfer)
    requires Inv(s) && NoncesFit(s) && ExecuteTransfer(s, t).Done?
    ensures NoncesFit(ExecuteTransfer(s, t).value.state)
  {
    hide Inv, ExecuteTransfer;
    TransferShape(s, t);
  }

  lemma ExecuteKeepsNoncesFit(s: State, item: Item)
    requires Inv(s) && NoncesFit(s) && Execute(s, item).Done?
    ensures NoncesFit(Execute(s, item).value.state)
  {
    hide Inv, Extends, ExecuteDeposit, ExecuteTransfer, ExecuteWithdraw, ExecuteChangePubKey;
    match item
    case Priority(PriorityOp(_, DepositRequest(d))) => DepositShape(s, d);
    case Priority(PriorityOp(_, FullExitRequest(_))) =>
    case Transaction(TransferTx(t)) => TransferKeepsNoncesFit(s, t);
    case Transaction(WithdrawTx(w)) => WithdrawShape(s, w);
    case Transaction(ChangePubKeyTx(p)) => ChangePubKeyShape(s, p);
  }

  lemma {:induction false} RunKeepsNoncesFit(s: State, items: seq<Item>)
    requires Inv(s) && NoncesFit(s)
    ensures NoncesFit(RunAll(s, items).state)
  {
    if items != [] {
      hide Inv, Extends, Execute, NoncesFit;
      var init, last := items[..|items| - 1], items[|items| - 1];
      var before := RunAll(s, init);
      RunKeepsNoncesFit(s, init);
      RunKeepsInv(s, init);
      if !before.halted && Execute(before.state, last).Done? {
        ExecuteKeepsNoncesFit(before.state, last);
      }
    }
  }

  /** After any run, self-transfers bring the rebuilt ledger up to the run's. */
  lemma RebuiltCatchesUp(s: State, items: seq<Item>) returns (more: seq<Item>)
    requires Inv(s) && NoncesFit(s)
    ensures !RunAll(Rebuilt(s, items), more).halted && RunAll(Rebuilt(s, items), more).state == RunAll(s, items).state
  {
    hide Inv, NoncesFit, R.Lags, RunAll, Rebuilt, Repeatable;
    var r, run := Rebuilt(s, items), RunAll(s, items);
    RebuiltLags(s, items);
    RunKeepsInv(s, items);
    RunKeepsNoncesFit(s, items);
    LagsInv(r, run.state, R.Stale(run.done));
    forall id | id in R.Stale(run.done) ensures id in r.accounts && Able(r.accounts[id]) {
      StaleIsRepeatable(s, items, id);
      var i: nat :| Repeatable(run.done, r, id, i);
      RepeatableIsAble(run.done, r, id, i);
    }
    more := CatchUp(r, run.state, R.Stale(run.done));
  }

  lemma RebuiltLags(s: State, items: seq<Item>)
    requires Inv(s)
    ensures R.Lags(Rebuilt(s, items), RunAll(s, items).state, R.Stale(RunAll(s, items).done))
  {
    R.ReplayOfRun(s, items);
  }

  // ---------- Restarting the keeper ----------

  /** The ledger a restarted server begins with: nothing is stored of the block being filled. */
  function Restarted(k: Keeper, k0: Keeper): State {
    R.ReplayAll(k0.state, SealedUpdates(k.commits))
  }

  /** Transaction `i` that the keeper executed is executed again, as number `j`, after a restart. */
  predicate RunsAgain(k: Keeper, k0: Keeper, i: nat, more: seq<Item>, j: nat, address: Address) {
    var done := RunAll(k0.state, Taken(k.commits) + k.pending.items).done;
    var later := RunAll(Restarted(k, k0), more).done;
    i < |done| && j < |later| && SentBy(done[i].item, address) && later[j].item == done[i].item
  }

  /** The last change of the address's account in a sealed block was a self-transfer. */
  ghost predicate LastSentToSelf(k: Keeper, k0: Keeper, address: Address) {
    var base := BaseAt(k0, k.commits, |k.commits|);
    address in base.index && base.index[address] in R.Stale(RunAll(k0.state, Taken(k.commits)).done)
  }

  /** The address has an executed transaction in the block being filled. */
  predicate HasUnsealed(k: Keeper, address: Address) {
    exists p :: 0 <= p < |k.pending.success| && SentBy(RequestOf(k.pending.success[p]), address)
  }

  lemma RestartIsRebuilt(k: Keeper, k0: Keeper)
    requires KeeperInv(k, k0)
    ensures Inv(k0.state) && Restarted(k, k0) == Rebuilt(k0.state, Taken(k.commits))
    ensures var run := RunAll(k0.state, Taken(k.commits));
            !run.halted && run.state == BaseAt(k0, k.commits, |k.commits|)
  {
    hide RunAll, PendingOk, CommitOk, Sealed;
    SealedMirrors(k.commits, k0);
  }

  /** What the keeper executed is what its sealed blocks hold and then what its pending block does. */
  lemma ExecutedSoFar(k: Keeper, k0: Keeper)
    requires KeeperInv(k, k0)
    ensures var sealed, pending := RunAll(k0.state, Taken(k.commits)),
                                   RunAll(BaseAt(k0, k.commits, |k.commits|), k.pending.items);
            && RunAll(k0.state, Taken(k.commits) + k.pending.items).done == sealed.done + pending.done
            && !pending.halted && k.pending.success == Landing(pending.done)
  {
    hide RunAll, ChainOk, Landing;
    RestartIsRebuilt(k, k0);
    RunConcat(k0.state, Taken(k.commits), k.pending.items);
  }

  lemma LandedRequest(done: seq<Effect>, p: nat)
    requires p < |done|
    ensures p < |Landing(done)| && RequestOf(Landing(done)[p]) == done[p].item
  {
  }

  lemma UnsealedRunsAgain(k: Keeper, k0: Keeper, address: Address)
    requires KeeperInv(k, k0) && NoncesFit(k0.state) && HasUnsealed(k, address)
    ensures exists i: nat, more: seq<Item>, j: nat :: RunsAgain(k, k0, i, more, j, address)
  {
    hide KeeperInv, RunAll, Landing, Inv, NoncesFit, Rebuilt, Restarted, RequestOf, Taken;
    RestartIsRebuilt(k, k0);
    ExecutedSoFar(k, k0);
    var base := BaseAt(k0, k.commits, |k.commits|);
    var sealed, pending := RunAll(k0.state, Taken(k.commits)), RunAll(base, k.pending.items);
    var p :| 0 <= p < |k.pending.success| && SentBy(RequestOf(k.pending.success[p]), address);
    assert p < |pending.done| by { LandingLength(pending.done); }
    LandedRequest(pending.done, p);
    var catchUp := RebuiltCatchesUp(k0.state, Taken(k.commits));
    RunConcat(Restarted(k, k0), catchUp, k.pending.items);
    var i, j := |sealed.done| + p, |RunAll(Restarted(k, k0), catchUp).done| + p;
    assert RunsAgain(k, k0, i, catchUp + k.pending.items, j, address);
  }

  lemma LandingLength(done: seq<Effect>)
    ensures |Landing(done)| == |done|
  {
  }

  /** After a restart, some transaction that an address had executed can be executed a second time if and only if its
      account was last changed, in the sealed blocks, by a self-transfer, or it has one in the block that was lost. */
  lemma RepeatedExactly(k: Keeper, k0: Keeper, address: Address)
    requires KeeperInv(k, k0) && NoncesFit(k0.state)
    ensures (exists i: nat, more: seq<Item>, j: nat :: RunsAgain(k, k0, i, more, j, address)) <==>
            LastSentToSelf(k, k0, address) || HasUnsealed(k, address)
  {
    hide KeeperInv, RunAll, Landing, Inv, NoncesFit, Rebuilt, Restarted, RequestOf, Taken;
    RestartIsRebuilt(k, k0);
    ExecutedSoFar(k, k0);
    LoggedRepeatsExactly(k0.state, Taken(k.commits), address);
    var sealed := RunAll(k0.state, Taken(k.commits));
    var pending := RunAll(BaseAt(k0, k.commits, |k.commits|), k.pending.items);
    if i: nat, more: seq<Item>, j: nat :| RunsAgain(k, k0, i, more, j, address) {
      if i < |sealed.done| {
        assert Again(k0.state, Taken(k.commits), i, more, j, address);
      } else {
        LandedRequest(pending.done, i - |sealed.done|);
      }
    }
    if LastSentToSelf(k, k0, address) {
      var i: nat, more: seq<Item>, j: nat :| Again(k0.state, Taken(k.commits), i, more, j, address);
      assert RunsAgain(k, k0, i, more, j, address);
    }
    if HasUnsealed(k, address) {
      UnsealedRunsAgain(k, k0, address);
    }
  }

  /** A keeper about to execute one withdrawal of token 3. */
  lemma WithdrawalQueued() returns (k: Keeper, k0: Keeper, tx: Tx)
    ensures KeeperInv(k, k0) && NoncesFit(k0.state) && k.commits == [] && k.pending.success == []
    ensures Running(k) && k.priority == [] && k.txs == [tx] && tx.WithdrawTx? && SentBy(Transaction(tx), 7)
    ensures TxChunks(k.state.index.Keys, tx) <= k.pending.chunksLeft && k.feeAccount in k.state.accounts
    ensures ExecuteTx(k.state, tx).Done? && k.state.accounts.Keys <= ExecuteTx(k.state, tx).value.state.accounts.Keys
  {
    var state := State(map[0 := Account(7, 0, 1, {3})], map[7 := 0]);
    tx := WithdrawTx(Withdraw(0, 7, 9, 3, 0, 0, Some(1)));
    k0 := Keeper(state, 1, 0, 0, [6], NewPending(0, 6), [], [], [], false, false, [], [], []);
    assert |state.accounts| == 1;
    InitialInv(k0);
    AcceptKeepsInv(k0, k0, [], [tx]);
    k := Accept(k0, [], [tx]);
  }

  /** A keeper with one executed withdrawal that is not sealed: after a restart it runs again. */
  lemma WithdrawalRepeats() returns (k: Keeper, k0: Keeper)
    ensures KeeperInv(k, k0) && NoncesFit(k0.state) && !LastSentToSelf(k, k0, 7)
    ensures |k.pending.success| == 1 && k.pending.success[0].ExecutedTx? && k.pending.success[0].tx.WithdrawTx?
    ensures exists i: nat, more: seq<Item>, j: nat :: RunsAgain(k, k0, i, more, j, 7)
  {
    var queued, tx;
    queued, k0, tx := WithdrawalQueued();
    k := KeeperStep(queued);
    hide KeeperInv, NoncesFit, ExecuteTx, RunsAgain;
    KeeperStepKeepsInv(queued, k0);
    assert RequestOf(k.pending.success[0]) == Transaction(tx);
    assert RunAll(k0.state, Taken([])).done == [];
    assert HasUnsealed(k, 7);
    UnsealedRunsAgain(k, k0, 7);
  }
}
