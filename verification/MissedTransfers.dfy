/** A restorer that misses some self-transfers: its ledger is the keeper's but for the nonces they spent, and stays
    that far behind whatever is restored afterwards, because nonces are refilled from its own ledger. */
module MissedTransfers {
  import opened Types
  import opened Ledger
  import opened LedgerRuns
  import opened Blocks
  import opened Keeper
  import opened Restore
  import R = Replay

  /** `r` is `s` before the missed self-transfers, one per occurrence of an account. */
  ghost predicate Trails(r: State, s: State, missed: multiset<AccountId>) {
    && r.index == s.index
    && r.accounts.Keys == s.accounts.Keys
    && (forall id | id in s.accounts ::
          && r.accounts[id] == s.accounts[id].(nonce := r.accounts[id].nonce)
          && r.accounts[id].nonce + missed[id] == s.accounts[id].nonce)
    && (forall id | id in missed :: id in s.accounts)
  }

  lemma TrailsByNothing(s: State)
    ensures Trails(s, s, multiset{})
  {
  }

  /** Nothing hides a missed self-transfer: the ledgers are equal exactly when none was missed. */
  lemma TrailsExactly(r: State, s: State, missed: multiset<AccountId>)
    requires Trails(r, s, missed)
    ensures r == s <==> missed == multiset{}
  {
    if missed != multiset{} {
      var id :| id in missed;
      assert r.accounts[id].nonce < s.accounts[id].nonce;
    } else {
      forall id | id in s.accounts ensures r.accounts[id] == s.accounts[id] {
        assert missed[id] == 0;
      }
      assert r.accounts == s.accounts;
    }
  }

  lemma TrailsInv(r: State, s: State, missed: multiset<AccountId>)
    requires Trails(r, s, missed) && Inv(s)
    ensures Inv(r) && |r.accounts| == |s.accounts|
  {
    assert |r.accounts.Keys| == |s.accounts.Keys|;
    assert |r.accounts| == |r.accounts.Keys| && |s.accounts| == |s.accounts.Keys|;
    forall id: nat ensures id in r.accounts <==> id < |r.accounts| {
      assert id in s.accounts <==> id < |s.accounts|;
    }
    forall id | id in r.accounts
      ensures r.accounts[id].address in r.index && r.index[r.accounts[id].address] == id
    {
      assert r.accounts[id].address == s.accounts[id].address;
    }
    forall a | a in r.index ensures r.index[a] in r.accounts && r.accounts[r.index[a]].address == a {
      assert s.accounts[s.index[a]].address == a;
    }
  }

  /** Both ledgers write the same account, each with its own nonce. */
  lemma WriteBoth(r: State, s: State, missed: multiset<AccountId>, id: AccountId, own: Account, ahead: Account)
    requires Trails(r, s, missed)
    requires own == ahead.(nonce := own.nonce) && own.nonce + missed[id] == ahead.nonce
    ensures Trails(Insert(r, id, own), Insert(s, id, ahead), missed)
  {
  }

  lemma MissOne(r: State, s: State, missed: multiset<AccountId>, id: AccountId)
    requires Trails(r, s, missed) && Inv(s) && id in s.accounts
    ensures Trails(r, Insert(s, id, s.accounts[id].(nonce := s.accounts[id].nonce + 1)), missed + multiset{id})
  {
    var after := Insert(s, id, s.accounts[id].(nonce := s.accounts[id].nonce + 1));
    assert after.index == s.index;
    forall j | j in after.accounts
      ensures r.accounts[j] == after.accounts[j].(nonce := r.accounts[j].nonce)
      ensures r.accounts[j].nonce + (missed + multiset{id})[j] == after.accounts[j].nonce
    {
      assert r.accounts[j] == s.accounts[j].(nonce := r.accounts[j].nonce);
    }
  }

  // ---------- One operation ----------

  /** Restoring on the ledger left behind succeeds, stays as far behind, and gives an operation of the same kind. */
  ghost predicate FollowsTrailing(o: Outcome<Executed>, e: Executed, missed: multiset<AccountId>) {
    o.Done? && Trails(o.value.state, e.state, missed) && o.value.op.Chunks() == e.op.Chunks()
  }

  lemma DepositTrails(r: State, s: State, missed: multiset<AccountId>, d: Deposit, wire: FranklinOp)
    requires Trails(r, s, missed) && Inv(s) && ExecuteDeposit(s, d).Done?
    requires Carries(wire, ExecuteDeposit(s, d).value.op)
    ensures FollowsTrailing(RestoreOp(r, wire), ExecuteDeposit(s, d).value, missed)
  {
    hide Inv, Extends, Trails;
    DepositShape(s, d);
    TrailsInv(r, s, missed);
    SameAccounts(r, s, missed);
    hide Insert;
    var id := Slot(s, d.to);
    if d.to in s.index {
      WriteBoth(r, s, missed, id, WithToken(r.accounts[id], d.token), WithToken(s.accounts[id], d.token));
    } else {
      assert missed[id] == 0;
      var born := WithToken(NewAccount(d.to), d.token);
      WriteBoth(r, s, missed, id, born, born);
    }
  }

  lemma SameAccounts(r: State, s: State, missed: multiset<AccountId>)
    requires Trails(r, s, missed)
    ensures r.index == s.index && r.accounts.Keys == s.accounts.Keys
    ensures forall id | id in s.accounts ::
              && r.accounts[id] == s.accounts[id].(nonce := r.accounts[id].nonce)
              && r.accounts[id].nonce + missed[id] == s.accounts[id].nonce
    ensures forall id | id !in s.accounts :: missed[id] == 0
  {
  }

  lemma SelfTransferTrails(r: State, s: State, missed: multiset<AccountId>, t: Transfer, wire: FranklinOp)
    requires Trails(r, s, missed) && Inv(s) && ExecuteTransfer(s, t).Done? && t.to == t.from
    requires Carries(wire, ExecuteTransfer(s, t).value.op)
    ensures FollowsTrailing(RestoreOp(r, wire), ExecuteTransfer(s, t).value, missed)
  {
    hide Inv, Extends, Trails, ExecuteTransfer, Insert;
    TransferShape(s, t);
    SameAccounts(r, s, missed);
    var from := s.index[t.from];
    var own, ahead := r.accounts[from], s.accounts[from];
    WriteBoth(r, s, missed, from, own.(nonce := own.nonce + 1), ahead.(nonce := ahead.nonce + 1));
  }

  lemma TransferTrails(r: State, s: State, missed: multiset<AccountId>, t: Transfer, wire: FranklinOp)
    requires Trails(r, s, missed) && Inv(s) && ExecuteTransfer(s, t).Done? && t.to != t.from
    requires Carries(wire, ExecuteTransfer(s, t).value.op)
    ensures FollowsTrailing(RestoreOp(r, wire), ExecuteTransfer(s, t).value, missed)
  {
    hide Inv, Extends, Trails, ExecuteTransfer, Insert;
    TransferShape(s, t);
    SameAccounts(r, s, missed);
    var from, to := s.index[t.from], Slot(s, t.to);
    WriteBoth(r, s, missed, from, Spent(r.accounts[from], t.token), Spent(s.accounts[from], t.token));
    var own := Insert(r, from, Spent(r.accounts[from], t.token));
    var ahead := Insert(s, from, Spent(s.accounts[from], t.token));
    if t.to in s.index {
      WriteBoth(own, ahead, missed, to, WithToken(r.accounts[to], t.token), WithToken(s.accounts[to], t.token));
    } else {
      var born := WithToken(NewAccount(t.to), t.token);
      WriteBoth(own, ahead, missed, to, born, born);
    }
  }

  lemma WithdrawTrails(r: State, s: State, missed: multiset<AccountId>, w: Withdraw, wire: FranklinOp)
    requires Trails(r, s, missed) && Inv(s) && ExecuteWithdraw(s, w).Done?
    requires Carries(wire, ExecuteWithdraw(s, w).value.op)
    ensures FollowsTrailing(RestoreOp(r, wire), ExecuteWithdraw(s, w).value, missed)
  {
    hide Inv, Extends, Trails, ExecuteWithdraw, Insert;
    WithdrawShape(s, w);
    SameAccounts(r, s, missed);
    var id := s.index[w.from];
    WriteBoth(r, s, missed, id, Spent(r.accounts[id], w.token), Spent(s.accounts[id], w.token));
  }

  lemma ChangePubKeyTrails(r: State, s: State, missed: multiset<AccountId>, p: ChangePubKey, wire: FranklinOp)
    requires Trails(r, s, missed) && Inv(s) && ExecuteChangePubKey(s, p).Done?
    requires Carries(wire, ExecuteChangePubKey(s, p).value.op)
    ensures FollowsTrailing(RestoreOp(r, wire), ExecuteChangePubKey(s, p).value, missed)
  {
    hide Inv, Extends, Trails, ExecuteChangePubKey, Insert;
    ChangePubKeyShape(s, p);
    SameAccounts(r, s, missed);
    var id := s.index[p.account];
    var own, ahead := r.accounts[id], s.accounts[id];
    WriteBoth(r, s, missed, id, own.(nonce := own.nonce + 1, pubKeyHash := p.newPubKeyHash),
              ahead.(nonce := ahead.nonce + 1, pubKeyHash := p.newPubKeyHash));
  }

  lemma FullExitTrails(r: State, s: State, missed: multiset<AccountId>, x: FullExit, wire: FranklinOp)
    requires Trails(r, s, missed) && x.accountId in s.accounts && wire == FullExitOp(x)
    ensures FollowsTrailing(RestoreOp(r, wire), WithOp(ApplyFullExit(s, x.accountId), FullExitOp(x)).value, missed)
  {
    hide Trails, Insert, ExitUpdates;
    SameAccounts(r, s, missed);
    var own, ahead := r.accounts[x.accountId], s.accounts[x.accountId];
    WriteBoth(r, s, missed, x.accountId, own.(tokens := {}), ahead.(tokens := {}));
  }

  lemma ExitIsCarried(s: State, x: FullExit, wire: FranklinOp)
    requires WithOp(ApplyFullExit(s, x.accountId), FullExitOp(x)).Done?
    requires Carries(wire, WithOp(ApplyFullExit(s, x.accountId), FullExitOp(x)).value.op)
    ensures x.accountId in s.accounts && wire == FullExitOp(x)
  {
  }

  lemma RestoreTrails(r: State, s: State, missed: multiset<AccountId>, item: Item, wire: FranklinOp)
    requires Trails(r, s, missed) && Inv(s) && Execute(s, item).Done? && Carries(wire, Execute(s, item).value.op)
    ensures FollowsTrailing(RestoreOp(r, wire), Execute(s, item).value, missed)
  {
    hide Inv, Trails, RestoreOp, Carries, ExecuteDeposit, ExecuteTransfer, ExecuteWithdraw, ExecuteChangePubKey,
         FollowsTrailing, ApplyFullExit;
    match item
    case Priority(PriorityOp(_, DepositRequest(d))) => DepositTrails(r, s, missed, d, wire);
    case Priority(PriorityOp(_, FullExitRequest(x))) =>
      ExitIsCarried(s, x, wire);
      FullExitTrails(r, s, missed, x, wire);
    case Transaction(TransferTx(t)) =>
      if t.to == t.from {
        SelfTransferTrails(r, s, missed, t, wire);
      } else {
        TransferTrails(r, s, missed, t, wire);
      }
    case Transaction(WithdrawTx(w)) => WithdrawTrails(r, s, missed, w, wire);
    case Transaction(ChangePubKeyTx(p)) => ChangePubKeyTrails(r, s, missed, p, wire);
  }

  // ---------- Runs ----------

  /** The restorer, started behind, after restoring what a run published. */
  ghost predicate RunFollowed(p: Progress, state: State, done: seq<Effect>, unprocessed: nat,
                              missed: multiset<AccountId>) {
    && Trails(p.state, state, missed)
    && p.unprocessed == unprocessed + PriorityOpsIn(Ops(done))
    && ChunksUsed(p.executed) == ChunksUsed(Landing(done))
  }

  lemma StepTrails(p: Progress, r: Run, unprocessed: nat, missed: multiset<AccountId>, item: Item, wire: FranklinOp)
    requires RunFollowed(p, r.state, r.done, unprocessed, missed) && Inv(r.state)
    requires !r.halted && Execute(r.state, item).Done?
    requires !wire.NoopOp? && Carries(wire, Execute(r.state, item).value.op)
    ensures RestoreStep(p, wire).Done?
    ensures RunFollowed(RestoreStep(p, wire).value, Step(r, item).state, Step(r, item).done, unprocessed, missed)
  {
    hide Inv, Execute, RestoreOp, Carries, Trails, Landing, Land, Ops, PriorityOpsIn, ChunksUsed, Record;
    var e := Execute(r.state, item).value;
    var effect := Effect(item, e.op, e.updates);
    RestoreTrails(p.state, r.state, missed, item, wire);
    RestoreKeepsKind(p.state, wire);
    CarriesKeepsKind(wire, e.op);
    OpsOneMore(r.done, effect);
    LandOneMore(r.done, effect);
    LandedChunks(r.done, effect);
    RecordedChunks(p.executed, RestoreOp(p.state, wire).value.op);
  }

  lemma OpsOneMore(done: seq<Effect>, e: Effect)
    ensures PriorityOpsIn(Ops(done + [e])) == PriorityOpsIn(Ops(done)) + if e.op.IsPriority() then 1 else 0
  {
    var more := Ops(done + [e]);
    assert more[..|done|] == Ops(done) && more[|done|] == e.op;
  }

  lemma RecordedChunks(executed: seq<ExecutedOp>, op: FranklinOp)
    requires !op.NoopOp?
    ensures ChunksUsed(executed + [Record(op, |executed|)]) == ChunksUsed(executed) + op.Chunks()
  {
    assert (executed + [Record(op, |executed|)])[..|executed|] == executed;
  }

  lemma {:induction false} RunTrails(r: State, s: State, missed: multiset<AccountId>, items: seq<Item>,
                                     unprocessed: nat, wires: seq<FranklinOp>)
    requires Trails(r, s, missed) && Inv(s) && AllCarry(WithoutNoops(wires), Ops(RunAll(s, items).done))
    ensures var p, run := RestoreOps(Progress(r, unprocessed, [], []), wires), RunAll(s, items);
            p.Done? && RunFollowed(p.value, run.state, run.done, unprocessed, missed)
    decreases |items|, |wires|
  {
    var start := Progress(r, unprocessed, [], []);
    if wires != [] && wires[|wires| - 1].NoopOp? {
      hide RunFollowed, RestoreOp, Ops, Trails;
      RunTrails(r, s, missed, items, unprocessed, wires[..|wires| - 1]);
    } else if items != [] {
      hide RunFollowed, Inv, Extends, Execute, RestoreStep, Carries, Trails;
      var before, last := RunAll(s, items[..|items| - 1]), items[|items| - 1];
      if before.halted || !Execute(before.state, last).Done? {
        assert RunAll(s, items).done == before.done;
        RunTrails(r, s, missed, items[..|items| - 1], unprocessed, wires);
      } else {
        var done := RunAll(s, items).done;
        var wire := wires[|wires| - 1];
        assert Ops(done)[..|before.done|] == Ops(before.done);
        assert WithoutNoops(wires)[|before.done|] == wire;
        assert WithoutNoops(wires[..|wires| - 1]) == WithoutNoops(wires)[..|before.done|];
        assert Ops(done)[|before.done|] == Execute(before.state, last).value.op;
        RunTrails(r, s, missed, items[..|items| - 1], unprocessed, wires[..|wires| - 1]);
        RunKeepsInv(s, items[..|items| - 1]);
        StepTrails(RestoreOps(start, wires[..|wires| - 1]).value, before, unprocessed, missed, last, wire);
      }
    }
  }

  /** The accounts that sent to themselves, once per time. */
  function Senders(done: seq<Effect>): multiset<AccountId> {
    if done == [] then multiset{} else
    Senders(done[..|done| - 1]) +
    if R.IsSelfTransfer(done[|done| - 1].op) then multiset{done[|done| - 1].op.from} else multiset{}
  }

  /** Missing a run of self-transfers leaves the restorer behind by their senders, and by nothing only if the run
      executed nothing. */
  lemma {:induction false} MissRun(r: State, s: State, missed: multiset<AccountId>, items: seq<Item>)
    requires Trails(r, s, missed) && Inv(s) && R.AllSelfTransfers(RunAll(s, items).done)
    ensures Trails(r, RunAll(s, items).state, missed + Senders(RunAll(s, items).done))
    ensures Senders(RunAll(s, items).done) == multiset{} <==> RunAll(s, items).done == []
  {
    if items == [] {
      assert missed + multiset{} == missed;
    } else {
      hide Inv, Extends, Execute, Trails, Senders, R.AllSelfTransfers;
      var init, last := items[..|items| - 1], items[|items| - 1];
      var before := RunAll(s, init);
      RunKeepsInv(s, init);
      if before.halted || !Execute(before.state, last).Done? {
        assert RunAll(s, items).done == before.done && RunAll(s, items).state == before.state;
        MissRun(r, s, missed, init);
      } else {
        var e := Execute(before.state, last).value;
        var effect := Effect(last, e.op, e.updates);
        assert RunAll(s, items).done == before.done + [effect] && RunAll(s, items).state == e.state;
        SendersMore(before.done, effect, missed);
        MissRun(r, s, missed, init);
        MissStep(r, before.state, missed + Senders(before.done), last);
      }
    }
  }

  lemma MissStep(r: State, s: State, missed: multiset<AccountId>, item: Item)
    requires Trails(r, s, missed) && Inv(s) && Execute(s, item).Done? && R.IsSelfTransfer(Execute(s, item).value.op)
    ensures var e := Execute(s, item).value; Trails(r, e.state, missed + multiset{e.op.from})
  {
    hide Inv, Execute, Trails, Insert;
    SelfTransferWrites(s, item);
    MissOne(r, s, missed, Execute(s, item).value.op.from);
  }

  lemma SendersMore(done: seq<Effect>, e: Effect, missed: multiset<AccountId>)
    requires R.AllSelfTransfers(done + [e])
    ensures R.AllSelfTransfers(done) && R.IsSelfTransfer(e.op) && e.op.TransferOp?
    ensures missed + Senders(done + [e]) == missed + Senders(done) + multiset{e.op.from}
    ensures Senders(done + [e]) != multiset{}
  {
    var more := done + [e];
    assert more[..|done|] == done && more[|done|] == e;
    forall i | 0 <= i < |done| ensures R.IsSelfTransfer(done[i].op) {
      assert more[i] == done[i];
    }
    assert e.op.from in Senders(more);
  }

  lemma SelfTransferWrites(s: State, item: Item)
    requires Inv(s) && Execute(s, item).Done? && R.IsSelfTransfer(Execute(s, item).value.op)
    ensures var e := Execute(s, item).value;
            var id := e.op.from;
            id in s.accounts && e.state == Insert(s, id, s.accounts[id].(nonce := s.accounts[id].nonce + 1))
  {
    hide Inv, ExecuteTransfer;
    if item.Transaction? && item.tx.TransferTx? {
      TransferShape(s, item.tx.transfer);
    }
  }
}
