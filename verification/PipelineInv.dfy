/** The pipeline's invariant, and what it says about the mempool: what it has heard is never ahead of the ledger. */
module PipelineInv {
  import opened Types
  import opened Ledger
  import opened LedgerRuns
  import opened EthWatch
  import opened Mempool
  import opened Keeper
  import opened KeeperBlocks
  import opened KeeperBudget
  import opened Pipeline
  import N = Nonces
  import R = Replay

  // ---------- The mempool is never ahead of the ledger ----------

  /** A logged update that the ledger has reached or passed. */
  ghost predicate Behind(u: (AccountId, AccountUpdate), s: State) {
    && u.0 in s.accounts
    && match u.1
       case Create(address, nonce) => s.accounts[u.0].address == address && nonce <= s.accounts[u.0].nonce
       case Delete(_, _) => false
       case AddToken(_, nonce, _) => nonce <= s.accounts[u.0].nonce
       case RemoveToken(_, nonce, _) => nonce <= s.accounts[u.0].nonce
       case ChangePubKeyHash(_, _, _, nonce) => nonce <= s.accounts[u.0].nonce
  }

  ghost predicate AllBehind(us: Updates, s: State) {
    forall i | 0 <= i < |us| :: Behind(us[i], s)
  }

  /** The mempool knows no address and no nonce that the ledger has not reached. */
  ghost predicate PoolBehind(pool: Pool, s: State) {
    && (forall id | id in pool.ids :: id in s.accounts && s.accounts[id].address == pool.ids[id])
    && (forall a | a in pool.nonces :: a in s.index && pool.nonces[a] <= N.NonceOf(s, a))
  }

  lemma BehindStays(us: Updates, s: State, t: State)
    requires AllBehind(us, s) && Extends(s, t)
    ensures AllBehind(us, t)
  {
    forall i | 0 <= i < |us| ensures Behind(us[i], t) {
      assert Behind(us[i], s);
    }
  }

  lemma HearBehind(pool: Pool, s: State, u: (AccountId, AccountUpdate))
    requires Inv(s) && PoolBehind(pool, s) && Behind(u, s)
    ensures PoolBehind(Hear(pool, u.0, u.1), s)
  {
  }

  lemma {:induction false} HearAllBehind(pool: Pool, s: State, us: Updates)
    requires Inv(s) && PoolBehind(pool, s) && AllBehind(us, s)
    ensures PoolBehind(HearAll(pool, us), s)
  {
    if us != [] {
      hide Inv, PoolBehind, Behind, Hear;
      HearAllBehind(pool, s, us[..|us| - 1]);
      HearBehind(HearAll(pool, us[..|us| - 1]), s, us[|us| - 1]);
    }
  }

  lemma TransferLogsBehind(s: State, t: Transfer)
    requires Inv(s) && ExecuteTransfer(s, t).Done?
    ensures AllBehind(ExecuteTransfer(s, t).value.updates, ExecuteTransfer(s, t).value.state)
  {
    hide Inv, ExecuteTransfer, Extends;
    TransferShape(s, t);
  }

  /** What a request logs is, nonces included, what the ledger then holds. */
  lemma ExecuteLogsBehind(s: State, item: Item)
    requires Inv(s) && Execute(s, item).Done?
    ensures AllBehind(Execute(s, item).value.updates, Execute(s, item).value.state)
  {
    hide Inv, ExecuteDeposit, ExecuteTransfer, ExecuteWithdraw, ExecuteChangePubKey, Extends;
    match item
    case Priority(PriorityOp(_, DepositRequest(d))) => DepositShape(s, d);
    case Priority(PriorityOp(_, FullExitRequest(_))) =>
    case Transaction(TransferTx(t)) => TransferLogsBehind(s, t);
    case Transaction(WithdrawTx(w)) => WithdrawShape(s, w);
    case Transaction(ChangePubKeyTx(p)) => ChangePubKeyShape(s, p);
  }

  lemma {:induction false} LogBehind(s: State, items: seq<Item>)
    requires Inv(s)
    ensures AllBehind(R.Log(RunAll(s, items).done), RunAll(s, items).state)
  {
    if items != [] {
      hide Inv, Execute, AllBehind, Extends;
      var before, last := RunAll(s, items[..|items| - 1]), items[|items| - 1];
      LogBehind(s, items[..|items| - 1]);
      RunKeepsInv(s, items[..|items| - 1]);
      if !before.halted && Execute(before.state, last).Done? {
        var e := Execute(before.state, last).value;
        ExecuteKeepsInv(before.state, last);
        ExecuteLogsBehind(before.state, last);
        BehindStays(R.Log(before.done), before.state, e.state);
        assert RunAll(s, items).done[..|before.done|] == before.done;
        BehindConcat(R.Log(before.done), e.updates, e.state);
      }
    } else {
      assert AllBehind([], s);
    }
  }

  lemma BehindConcat(us: Updates, vs: Updates, s: State)
    ensures AllBehind(us + vs, s) <==> AllBehind(us, s) && AllBehind(vs, s)
  {
    forall i | 0 <= i < |us| ensures (us + vs)[i] == us[i] {}
    forall i | 0 <= i < |vs| ensures (us + vs)[|us| + i] == vs[i] {}
  }

  // ---------- The invariant ----------

  predicate Serial(ops: seq<PriorityOp>, first: nat) {
    forall i | 0 <= i < |ops| :: ops[i].serialId == first + i
  }

  /** The operations that left the watcher carry consecutive serial ids up to the proposer's counter. */
  ghost predicate SerialInv(s: System, n0: nat) {
    var out := Gather(PriorityIn, s.keeper.accepted) + Gather(OpsIn, s.toKeeper);
    && Keyed(s.watcher)
    && Serial(out, n0) && s.counter == n0 + |out|
    && Gather(FirstIn, s.inbox) == (if s.phase.Asked? then [s.counter] else [])
    && (s.phase.Selecting? ==> s.phase.first == s.counter)
    && (s.phase.Selected? || s.phase.Answered? ==> Serial(s.phase.ops, s.counter))
  }

  /** Every admitted transaction is in exactly one place, in the order of admission. */
  ghost predicate TxsInv(s: System) {
    s.admitted == Gather(TxIn, s.keeper.accepted) + Gather(TxsIn, s.toKeeper)
                  + (if s.phase.Answered? then s.phase.txs else []) + s.pool.ready
  }

  /** The mempool has replayed a prefix of the sealed blocks' updates; the rest of what was delivered is on its way. */
  ghost predicate LogInv(s: System, pool0: Pool) {
    && s.delivered <= |s.keeper.commits|
    && s.heard + Gather(UpdatesIn, s.inbox) == SealedUpdates(s.keeper.commits[..s.delivered])
    && s.pool == HearAll(pool0, s.heard).(ready := s.pool.ready)
  }

  predicate Affordable(k: Keeper, priority: seq<PriorityOp>, txs: seq<Tx>) {
    Demand(k.state.index.Keys, PriorityItems(priority) + TxItems(txs)) <= Max(k.sizes)
  }

  /** No proposed mini-block asks for more than one empty block. */
  ghost predicate SpaceInv(s: System) {
    && (forall i | 0 <= i < |s.toKeeper| ::
          s.toKeeper[i].MiniBlock? ==> Affordable(s.keeper, s.toKeeper[i].priority, s.toKeeper[i].txs))
    && (s.phase.Selected? ==> ChunksOf(s.phase.ops) <= Max(s.keeper.sizes))
    && (s.phase.Answered? ==> Affordable(s.keeper, s.phase.ops, s.phase.txs))
    && (s.keeper.busy ==> Budget(s.keeper, s.started))
  }

  /** The nonce is spent: the ledger has moved past it. */
  predicate Dead(s: State, tx: Tx) {
    tx.Nonce() < N.NonceOf(s, tx.Sender())
  }

  ghost predicate RefusedInv(s: System) {
    forall i | 0 <= i < |s.refused| :: Dead(s.keeper.state, s.refused[i])
  }

  ghost predicate SystemInv(s: System, s0: System) {
    && Starts(s0)
    && KeeperInv(s.keeper, s0.keeper)
    && SerialInv(s, s0.keeper.unprocessed)
    && TxsInv(s)
    && LogInv(s, s0.pool)
    && SpaceInv(s)
    && RefusedInv(s)
  }

  lemma StartInv(s: System)
    requires Starts(s)
    ensures SystemInv(s, s)
  {
    InitialInv(s.keeper);
  }

  // ---------- The mempool, given the invariant ----------

  lemma {:induction false} SealedUpdatesPrefix(commits: seq<Commit>, n: nat)
    requires n <= |commits|
    ensures SealedUpdates(commits[..n]) <= SealedUpdates(commits)
  {
    if n < |commits| {
      assert commits[..|commits| - 1][..n] == commits[..n];
      SealedUpdatesPrefix(commits[..|commits| - 1], n);
    } else {
      assert commits[..n] == commits;
    }
  }

  lemma StartBehind(s: System)
    requires Starts(s)
    ensures PoolBehind(s.pool, s.keeper.state)
  {
    var state := s.keeper.state;
    forall a | a in s.pool.nonces ensures a in state.index && s.pool.nonces[a] <= N.NonceOf(state, a) {
      var id :| HasAddress(state.accounts, id, a);
      assert state.index[state.accounts[id].address] == id;
    }
  }

  lemma PoolStaysBehind(pool: Pool, s: State, t: State)
    requires PoolBehind(pool, s) && Extends(s, t) && Inv(s) && Inv(t)
    ensures PoolBehind(pool, t)
  {
  }

  /** Every update in a sealed block is behind the ledger. */
  lemma CommitsBehind(k: Keeper, k0: Keeper)
    requires KeeperInv(k, k0)
    ensures AllBehind(SealedUpdates(k.commits), k.state) && Extends(k0.state, k.state)
  {
    var items := Taken(k.commits) + k.pending.items;
    NothingLost(k, k0);
    LogBehind(k0.state, items);
    RunKeepsInv(k0.state, items);
    BehindConcat(SealedUpdates(k.commits), k.pending.updates, k.state);
  }

  /** In every state with the invariant the mempool's nonces are a replay of a prefix of the log, so never too high. */
  lemma PoolNeverAhead(s: System, s0: System)
    requires SystemInv(s, s0)
    ensures PoolBehind(s.pool, s.keeper.state)
    ensures s.pool.nonces.Keys <= s.keeper.state.index.Keys
  {
    hide Starts, SerialInv, TxsInv, SpaceInv, RefusedInv, KeeperInv, PoolBehind, AllBehind, Behind, Inv, Extends;
    var state := s.keeper.state;
    CommitsBehind(s.keeper, s0.keeper);
    SealedUpdatesPrefix(s.keeper.commits, s.delivered);
    PrefixBehind(s.heard, SealedUpdates(s.keeper.commits), state);
    StartBehind(s0);
    StartsInv(s, s0);
    PoolStaysBehind(s0.pool, s0.keeper.state, state);
    HearAllBehind(s0.pool, state, s.heard);
    ReadyIsNoKnowledge(HearAll(s0.pool, s.heard), s.pool.ready, state);
  }

  lemma PrefixBehind(us: Updates, vs: Updates, s: State)
    requires us <= vs && AllBehind(vs, s)
    ensures AllBehind(us, s)
  {
    forall i | 0 <= i < |us| ensures Behind(us[i], s) {
      assert us[i] == vs[i];
    }
  }

  lemma StartsInv(s: System, s0: System)
    requires Starts(s0) && KeeperInv(s.keeper, s0.keeper)
    ensures Inv(s0.keeper.state) && Inv(s.keeper.state)
  {
  }

  lemma ReadyIsNoKnowledge(pool: Pool, ready: seq<Tx>, s: State)
    requires PoolBehind(pool, s)
    ensures PoolBehind(pool.(ready := ready), s)
    ensures pool.nonces.Keys <= s.index.Keys
  {
  }
}
