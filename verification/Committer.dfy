/** The committer stores, without committing it, a block that logged nothing and holds no priority operation.
    That is meant for blocks with refused transactions only, but self-transfers log nothing either. */
module Committer {
  import opened Types
  import opened Ledger
  import opened LedgerRuns
  import opened Keeper
  import opened Pipeline
  import R = Replay

  lemma LogsNothing(s: State, item: Item)
    requires Inv(s) && Execute(s, item).Done?
    ensures var e := Execute(s, item).value;
            e.updates == [] && !item.Priority? <==> R.IsSelfTransfer(e.op)
  {
    hide Inv, ExecuteDeposit, ExecuteTransfer, ExecuteWithdraw, ExecuteChangePubKey, Extends;
    match item
    case Priority(PriorityOp(_, DepositRequest(d))) => DepositShape(s, d);
    case Priority(PriorityOp(_, FullExitRequest(_))) =>
    case Transaction(TransferTx(t)) => TransferShape(s, t);
    case Transaction(WithdrawTx(w)) => WithdrawShape(s, w);
    case Transaction(ChangePubKeyTx(p)) => ChangePubKeyShape(s, p);
  }

  lemma {:induction false} RunLogsNothing(s: State, items: seq<Item>)
    requires Inv(s)
    ensures var done := RunAll(s, items).done;
            R.Log(done) == [] && CountPriority(done) == 0 <==> R.AllSelfTransfers(done)
  {
    if items == [] {
      assert RunAll(s, []).done == [];
    } else {
      hide Inv, Execute, Extends, R.IsSelfTransfer, R.Log, CountPriority, R.AllSelfTransfers, RunAll;
      var before, last := RunAll(s, items[..|items| - 1]), items[|items| - 1];
      RunLogsNothing(s, items[..|items| - 1]);
      RunKeepsInv(s, items[..|items| - 1]);
      LastStep(s, items);
      if !before.halted && Execute(before.state, last).Done? {
        var e := Execute(before.state, last).value;
        LogsNothing(before.state, last);
        NothingMore(before.done, Effect(last, e.op, e.updates));
      }
    }
  }

  lemma LastStep(s: State, items: seq<Item>)
    requires items != []
    ensures var before, last := RunAll(s, items[..|items| - 1]), items[|items| - 1];
            RunAll(s, items).done ==
            if !before.halted && Execute(before.state, last).Done? then
              var e := Execute(before.state, last).value;
              before.done + [Effect(last, e.op, e.updates)]
            else before.done
  {
    hide Execute;
  }

  lemma NothingMore(done: seq<Effect>, e: Effect)
    requires R.Log(done) == [] && CountPriority(done) == 0 <==> R.AllSelfTransfers(done)
    requires e.updates == [] && !e.item.Priority? <==> R.IsSelfTransfer(e.op)
    ensures R.Log(done + [e]) == [] && CountPriority(done + [e]) == 0 <==> R.AllSelfTransfers(done + [e])
  {
    hide R.IsSelfTransfer;
    LoggedMore(done, e);
    SelfTransfersMore(done, e);
    hide R.Log, CountPriority, R.AllSelfTransfers;
    if R.Log(done + [e]) == [] {
      assert |R.Log(done)| + |e.updates| == 0;
    }
  }

  lemma LoggedMore(done: seq<Effect>, e: Effect)
    ensures R.Log(done + [e]) == R.Log(done) + e.updates
    ensures CountPriority(done + [e]) == CountPriority(done) + if e.item.Priority? then 1 else 0
  {
    assert (done + [e])[..|done|] == done;
  }

  lemma SelfTransfersMore(done: seq<Effect>, e: Effect)
    ensures R.AllSelfTransfers(done + [e]) <==> R.AllSelfTransfers(done) && R.IsSelfTransfer(e.op)
  {
    hide R.IsSelfTransfer;
    var more := done + [e];
    assert more[|done|] == e && forall i | 0 <= i < |done| :: more[i] == done[i];
  }

  /** A block is dropped exactly when everything it executed was a self-transfer; then it leaves the ledger as it was
      exactly when it executed nothing. */
  lemma DroppedExactly(c: Commit, base: State, unprocessed: nat, number: nat, feeAccount: AccountId, sizes: seq<nat>)
    requires CommitOk(c, base, unprocessed, number, feeAccount, sizes) && Inv(base)
    ensures var done := RunAll(base, c.items).done;
            && (Dropped(c) <==> R.AllSelfTransfers(done))
            && (Dropped(c) ==> (c.block.root == base <==> done == []))
  {
    hide RunAll, Inv;
    RunLogsNothing(base, c.items);
    R.ReplayOfRun(base, c.items);
    var r := RunAll(base, c.items);
    if Dropped(c) {
      R.LagsExactly(base, r.state, R.Stale(r.done));
      if r.done != [] {
        assert R.IsSelfTransfer(r.done[|r.done| - 1].op);
        assert r.done[|r.done| - 1].op.from in R.Stale(r.done);
      }
    }
  }
}
