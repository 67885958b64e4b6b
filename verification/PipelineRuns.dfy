/** What holds in every state the pipeline can reach, in whatever order its components take their steps:
    each priority operation and each transaction goes through once and in order, no mini-block seals more
    than one block, and the mempool never turns away a transaction that could still be executed. */
module PipelineRuns {
  import opened Types
  import opened Ledger
  import opened LedgerRuns
  import opened EthWatch
  import opened Mempool
  import opened Keeper
  import opened KeeperBudget
  import opened Pipeline
  import opened PipelineInv

  // ---------- Every event keeps the invariant ----------

  /** What a step of the keeper leaves to the others: history only grows and so does the ledger. */
  ghost predicate Continues(k: Keeper, next: Keeper) {
    SameHistory(k, next) && Extends(k.state, next.state)
  }

  predicate SameHistory(k: Keeper, next: Keeper) {
    next.accepted == k.accepted && k.commits <= next.commits && next.sizes == k.sizes && (next.busy ==> k.busy)
  }

  lemma SealHistory(k: Keeper)
    ensures SameHistory(k, Seal(k)) && SameHistory(k, Seal(Notify(k)))
    ensures Seal(k).state == k.state
  {
  }

  lemma StepHistory(k: Keeper)
    ensures SameHistory(k, KeeperStep(k))
  {
    hide Seal, Notify, Execute, ExecutePriority, ExecuteTx, Charge, Finish;
    if Running(k) {
      SealHistory(k);
      if k.priority == [] && k.txs == [] {
        FinishHistory(k);
      }
    }
  }

  lemma FinishHistory(k: Keeper)
    ensures SameHistory(k, Finish(k))
  {
    hide Seal;
    SealHistory(k.(pending := k.pending.(iteration := k.pending.iteration + 1)));
  }

  lemma StepContinues(k: Keeper, k0: Keeper)
    requires KeeperInv(k, k0)
    ensures Continues(k, KeeperStep(k))
  {
    hide KeeperInv, KeeperStep, Extends;
    KnownGrows(k, k0);
    StepHistory(k);
  }

  // ---------- Serial ids ----------

  lemma PoolTakesSerial(s: System, n0: nat)
    requires SerialInv(s, n0) && s.inbox != [] && !s.phase.Selecting? && !s.phase.Selected?
    ensures SerialInv(PoolTake(s), n0)
  {
    hide HearAll, Keyed, Serial, Gather, Admits;
    GatherFirst(FirstIn, s.inbox);
    var rest := Gather(FirstIn, s.inbox[1..]);
    if s.inbox[0].GetBlock? {
      assert Gather(FirstIn, s.inbox)[0] == s.inbox[0].first;
      assert |rest| == 0;
    } else {
      assert [] + rest == rest;
    }
  }

  lemma InboxSerial(s: System, n0: nat, message: Message)
    requires SerialInv(s, n0) && !message.GetBlock?
    ensures SerialInv(s.(inbox := s.inbox + [message]), n0)
  {
    hide Keyed, Serial;
    GatherMore(FirstIn, s.inbox, message);
  }

  lemma TickSerial(s: System, n0: nat)
    requires SerialInv(s, n0) && s.phase.Resting?
    ensures SerialInv(Next(s, Tick), n0)
  {
    hide Keyed, Serial;
    GatherMore(FirstIn, s.inbox, GetBlock(s.counter));
  }

  lemma SelectSerial(s: System, n0: nat)
    requires SerialInv(s, n0) && s.phase.Selecting?
    ensures SerialInv(Next(s, WatcherAnswers), n0)
  {
  }

  lemma SendSerial(s: System, n0: nat)
    requires SerialInv(s, n0) && s.phase.Answered?
    ensures SerialInv(Next(s, ProposerSends), n0)
  {
    hide Gather;
    GatherMore(OpsIn, s.toKeeper, MiniBlock(s.phase.ops, s.phase.txs));
    var accepted, out := Gather(PriorityIn, s.keeper.accepted), Gather(OpsIn, s.toKeeper);
    assert accepted + (out + s.phase.ops) == accepted + out + s.phase.ops;
    assert Serial(accepted + out + s.phase.ops, n0);
  }

  lemma KeeperTakesSerial(s: System, n0: nat)
    requires SerialInv(s, n0) && s.toKeeper != []
    ensures SerialInv(KeeperTake(s), n0)
  {
    hide Keyed, Serial, Seal, Accept, Gather;
    GatherFirst(OpsIn, s.toKeeper);
    GatherAccepted(s.keeper, OpsIn(s.toKeeper[0]), TxsIn(s.toKeeper[0]));
    SealHistory(s.keeper);
    var accepted, ops := Gather(PriorityIn, s.keeper.accepted), OpsIn(s.toKeeper[0]);
    var out := Gather(OpsIn, s.toKeeper[1..]);
    assert accepted + (ops + out) == accepted + ops + out;
    assert [] + out == out;
  }

  lemma SerialKeeps(s: System, s0: System, e: Event)
    requires SystemInv(s, s0)
    ensures SerialInv(Next(s, e), s0.keeper.unprocessed)
  {
    hide KeeperInv, TxsInv, LogInv, SpaceInv, RefusedInv, Starts, PoolTake, PoolAnswer, KeeperTake, KeeperStep, Extends;
    var n0 := s0.keeper.unprocessed;
    match e
    case Poll(ops) => CollectKeepsKeyed(s.watcher, ops);
    case Submit(tx) => InboxSerial(s, n0, NewTx(tx));
    case Tick => if s.phase.Resting? { TickSerial(s, n0); }
    case PoolTakes =>
      if s.inbox != [] && !s.phase.Selecting? && !s.phase.Selected? { PoolTakesSerial(s, n0); }
    case WatcherAnswers => if s.phase.Selecting? { SelectSerial(s, n0); }
    case PoolAnswers => if s.phase.Selected? { PoolAnswerMoves(s); }
    case ProposerSends => if s.phase.Answered? { SendSerial(s, n0); }
    case AskSeal =>
      GatherMore(OpsIn, s.toKeeper, SealBlock);
      assert Gather(OpsIn, s.toKeeper) + [] == Gather(OpsIn, s.toKeeper);
    case KeeperTakes => if s.toKeeper != [] { KeeperTakesSerial(s, n0); }
    case KeeperTurns => StepHistory(s.keeper);
    case CommitterTakes =>
      if s.delivered < |s.keeper.commits| {
        InboxSerial(s, n0, UpdateNonces(s.keeper.commits[s.delivered].updates));
        assert s.inbox + [] == s.inbox;
      }
  }

  lemma PoolAnswerMoves(s: System)
    requires s.phase.Selected?
    ensures var next := PoolAnswer(s);
            && next.phase.Answered? && next.phase.ops == s.phase.ops
            && next.phase.txs + next.pool.ready == s.pool.ready
            && next == s.(phase := next.phase, pool := s.pool.(ready := next.pool.ready))
  {
  }

  // ---------- Transactions ----------

  lemma GetBlockWasAsked(s: System, n0: nat)
    requires SerialInv(s, n0) && s.inbox != [] && s.inbox[0].GetBlock?
    ensures s.phase.Asked?
  {
    hide Gather, Keyed, Serial;
    GatherFirst(FirstIn, s.inbox);
    assert Gather(FirstIn, s.inbox)[0] == s.inbox[0].first;
  }

  lemma PoolTakesTxs(s: System, n0: nat)
    requires TxsInv(s) && SerialInv(s, n0) && s.inbox != [] && !s.phase.Selecting? && !s.phase.Selected?
    ensures TxsInv(PoolTake(s))
  {
    hide HearAll, Gather, Admits, SerialInv;
    match s.inbox[0]
    case UpdateNonces(updates) => HearingLeavesQueue(s.pool, [], updates);
    case GetBlock(_) => GetBlockWasAsked(s, n0);
    case NewTx(tx) =>
      var rest := s.admitted[..|s.admitted| - |s.pool.ready|];
      assert rest + s.pool.ready + [tx] == rest + (s.pool.ready + [tx]);
  }

  lemma SendTxs(s: System)
    requires TxsInv(s) && s.phase.Answered?
    ensures TxsInv(Next(s, ProposerSends))
  {
    hide Gather;
    GatherMore(TxsIn, s.toKeeper, MiniBlock(s.phase.ops, s.phase.txs));
  }

  lemma KeeperTakesTxs(s: System)
    requires TxsInv(s) && s.toKeeper != []
    ensures TxsInv(KeeperTake(s))
  {
    hide Seal, Accept, Gather;
    GatherFirst(TxsIn, s.toKeeper);
    GatherAccepted(s.keeper, OpsIn(s.toKeeper[0]), TxsIn(s.toKeeper[0]));
    SealHistory(s.keeper);
  }

  lemma TxsKeeps(s: System, s0: System, e: Event)
    requires SystemInv(s, s0)
    ensures TxsInv(Next(s, e))
  {
    hide KeeperInv, SerialInv, LogInv, SpaceInv, RefusedInv, Starts, PoolTake, PoolAnswer, KeeperTake, KeeperStep,
         Extends, Gather, Collect;
    match e
    case PoolTakes =>
      if s.inbox != [] && !s.phase.Selecting? && !s.phase.Selected? { PoolTakesTxs(s, s0.keeper.unprocessed); }
    case PoolAnswers => if s.phase.Selected? { PoolAnswerMoves(s); }
    case ProposerSends => if s.phase.Answered? { SendTxs(s); }
    case AskSeal => GatherMore(TxsIn, s.toKeeper, SealBlock);
    case KeeperTakes => if s.toKeeper != [] { KeeperTakesTxs(s); }
    case KeeperTurns => StepHistory(s.keeper);
    case _ =>
  }

  // ---------- The update log ----------

  lemma HearMore(pool0: Pool, heard: Updates, ready: seq<Tx>, updates: Updates)
    ensures HearAll(HearAll(pool0, heard).(ready := ready), updates) == HearAll(pool0, heard + updates).(ready := ready)
  {
    HearConcat(pool0, heard, updates);
    HearingLeavesQueue(HearAll(pool0, heard), ready, updates);
  }

  lemma InboxLog(s: System, pool0: Pool, message: Message)
    requires LogInv(s, pool0) && !message.UpdateNonces?
    ensures LogInv(s.(inbox := s.inbox + [message]), pool0)
  {
    hide Gather, HearAll;
    GatherMore(UpdatesIn, s.inbox, message);
  }

  lemma PoolTakesLog(s: System, pool0: Pool)
    requires LogInv(s, pool0) && s.inbox != []
    ensures LogInv(PoolTake(s), pool0)
  {
    hide Gather, HearAll, Admits;
    GatherFirst(UpdatesIn, s.inbox);
    var rest := Gather(UpdatesIn, s.inbox[1..]);
    if s.inbox[0].UpdateNonces? {
      HearMore(pool0, s.heard, s.pool.ready, s.inbox[0].updates);
      assert s.heard + (s.inbox[0].updates + rest) == s.heard + s.inbox[0].updates + rest;
    } else {
      assert [] + rest == rest;
    }
  }

  lemma CommitLog(s: System, pool0: Pool)
    requires LogInv(s, pool0)
    ensures LogInv(Next(s, CommitterTakes), pool0)
  {
    hide Gather, HearAll;
    if s.delivered < |s.keeper.commits| {
      var c := s.keeper.commits[s.delivered];
      assert s.keeper.commits[..s.delivered + 1][..s.delivered] == s.keeper.commits[..s.delivered];
      GatherMore(UpdatesIn, s.inbox, UpdateNonces(c.updates));
      var rest := Gather(UpdatesIn, s.inbox);
      assert s.heard + (rest + c.updates) == s.heard + rest + c.updates;
      assert s.inbox + [] == s.inbox && rest + [] == rest;
    }
  }

  lemma HistoryLog(s: System, pool0: Pool, next: Keeper)
    requires LogInv(s, pool0) && SameHistory(s.keeper, next)
    ensures LogInv(s.(keeper := next), pool0)
  {
    hide Gather, HearAll;
    assert next.commits[..s.delivered] == s.keeper.commits[..s.delivered];
  }

  lemma LogKeeps(s: System, s0: System, e: Event)
    requires SystemInv(s, s0)
    ensures LogInv(Next(s, e), s0.pool)
  {
    hide KeeperInv, SerialInv, TxsInv, SpaceInv, RefusedInv, Starts, PoolTake, PoolAnswer, KeeperStep,
         Extends, Gather, Collect, HearAll, Seal;
    match e
    case Submit(tx) => InboxLog(s, s0.pool, NewTx(tx));
    case Tick => InboxLog(s, s0.pool, GetBlock(s.counter));
    case PoolTakes => if s.inbox != [] { PoolTakesLog(s, s0.pool); }
    case PoolAnswers => if s.phase.Selected? { PoolAnswerMoves(s); }
    case KeeperTakes =>
      SealHistory(s.keeper);
      HistoryLog(s, s0.pool, Seal(s.keeper));
    case KeeperTurns =>
      StepHistory(s.keeper);
      HistoryLog(s, s0.pool, KeeperStep(s.keeper));
    case CommitterTakes => CommitLog(s, s0.pool);
    case _ =>
  }

  // ---------- Space ----------

  lemma {:induction false} PriorityDemand(known: set<Address>, ops: seq<PriorityOp>)
    ensures Demand(known, PriorityItems(ops)) == ChunksOf(ops)
  {
    if ops != [] {
      var n := |ops| - 1;
      PriorityDemand(known, ops[..n]);
      assert PriorityItems(ops) == PriorityItems(ops[..n]) + [Priority(ops[n])];
      DemandConcat(known, PriorityItems(ops[..n]), [Priority(ops[n])]);
    }
  }

  lemma {:induction false} TxDemand(known: set<Address>, txs: seq<Tx>)
    ensures Demand(known, TxItems(txs)) == Estimate(known, txs)
  {
    if txs != [] {
      var n := |txs| - 1;
      TxDemand(known, txs[..n]);
      assert TxItems(txs) == TxItems(txs[..n]) + [Transaction(txs[n])];
      DemandConcat(known, TxItems(txs[..n]), [Transaction(txs[n])]);
    }
  }

  lemma StaysAffordable(k: Keeper, next: Keeper, priority: seq<PriorityOp>, txs: seq<Tx>)
    requires Affordable(k, priority, txs) && next.sizes == k.sizes && Extends(k.state, next.state)
    ensures Affordable(next, priority, txs)
  {
    KnowingMoreCostsLess(k.state.index.Keys, next.state.index.Keys, PriorityItems(priority) + TxItems(txs));
  }

  /** The mempool knows no more addresses than the ledger, so what it estimates is enough. */
  lemma ProposalIsAffordable(s: System, s0: System)
    requires SystemInv(s, s0) && s.phase.Selected?
    ensures var next := PoolAnswer(s).phase; Affordable(s.keeper, next.ops, next.txs)
  {
    PoolNeverAhead(s, s0);
    hide SystemInv, PoolBehind;
    var known := s.pool.nonces.Keys;
    var next := PoolAnswer(s).phase;
    PriorityDemand(known, next.ops);
    TxDemand(known, next.txs);
    DemandConcat(known, PriorityItems(next.ops), TxItems(next.txs));
    KnowingMoreCostsLess(known, s.keeper.state.index.Keys, PriorityItems(next.ops) + TxItems(next.txs));
    SelectedFits(s, s0);
  }

  lemma SelectedFits(s: System, s0: System)
    requires SystemInv(s, s0) && s.phase.Selected?
    ensures ChunksOf(s.phase.ops) <= Max(s.keeper.sizes)
  {
  }

  lemma KeeperMovesSpace(s: System, next: Keeper)
    requires SpaceInv(s) && Continues(s.keeper, next)
    requires next.busy ==> Budget(next, s.started)
    ensures SpaceInv(s.(keeper := next))
  {
    hide Affordable, Budget, Extends, ChunksOf;
    forall i | 0 <= i < |s.toKeeper| && s.toKeeper[i].MiniBlock?
      ensures Affordable(next, s.toKeeper[i].priority, s.toKeeper[i].txs)
    {
      StaysAffordable(s.keeper, next, s.toKeeper[i].priority, s.toKeeper[i].txs);
    }
    if s.phase.Answered? {
      StaysAffordable(s.keeper, next, s.phase.ops, s.phase.txs);
    }
  }

  lemma KeeperTakesSpace(s: System)
    requires SpaceInv(s) && s.toKeeper != [] && !s.keeper.busy && !s.keeper.halted
    ensures SpaceInv(KeeperTake(s))
  {
    hide ChunksOf;
    var rest := s.(toKeeper := s.toKeeper[1..]);
    assert SpaceInv(rest);
    match s.toKeeper[0]
    case MiniBlock(priority, txs) =>
      assert Affordable(s.keeper, priority, txs);
      hide Demand;
    case SealBlock =>
      hide Affordable, Extends, Seal;
      SealHistory(s.keeper);
      ExtendsReflexive(s.keeper.state);
      KeeperMovesSpace(rest, Seal(s.keeper));
  }

  lemma SpaceKeeps(s: System, s0: System, e: Event)
    requires SystemInv(s, s0)
    ensures SpaceInv(Next(s, e))
  {
    hide KeeperInv, SerialInv, TxsInv, LogInv, RefusedInv, Starts, PoolTake, PoolAnswer, KeeperTake, KeeperStep,
         Extends, Collect, Affordable, Budget;
    match e
    case PoolTakes => if s.inbox != [] { PoolTakeKeepsKeeper(s); }
    case WatcherAnswers =>
    case PoolAnswers =>
      if s.phase.Selected? {
        PoolAnswerMoves(s);
        ProposalIsAffordable(s, s0);
      }
    case KeeperTakes => if s.toKeeper != [] && !s.keeper.busy && !s.keeper.halted { KeeperTakesSpace(s); }
    case KeeperTurns =>
      StepContinues(s.keeper, s0.keeper);
      if s.keeper.busy { StepKeepsBudget(s.keeper, s0.keeper, s.started); }
      KeeperMovesSpace(s, KeeperStep(s.keeper));
    case _ =>
  }

  lemma PoolTakeKeepsKeeper(s: System)
    requires s.inbox != []
    ensures var next := PoolTake(s);
            && next.keeper == s.keeper && next.toKeeper == s.toKeeper && next.started == s.started
            && (next.phase == s.phase || next.phase.Selecting?)
  {
  }

  // ---------- Refused transactions ----------

  lemma DeadStays(s: State, t: State, tx: Tx)
    requires Inv(s) && Inv(t) && Extends(s, t) && Dead(s, tx)
    ensures Dead(t, tx)
  {
  }

  /** The mempool turns away only what the ledger has already moved past. */
  lemma RefusesOnlyDead(s: System, s0: System, tx: Tx)
    requires SystemInv(s, s0) && !Admits(s.pool, tx)
    ensures Dead(s.keeper.state, tx)
  {
    PoolNeverAhead(s, s0);
    hide SystemInv;
  }

  lemma KeeperMovesRefused(s: System, next: Keeper)
    requires RefusedInv(s) && Inv(s.keeper.state) && Inv(next.state) && Extends(s.keeper.state, next.state)
    ensures RefusedInv(s.(keeper := next))
  {
    hide Dead, Inv, Extends;
    forall i | 0 <= i < |s.refused| ensures Dead(next.state, s.refused[i]) {
      DeadStays(s.keeper.state, next.state, s.refused[i]);
    }
  }

  lemma RefusedKeeps(s: System, s0: System, e: Event)
    requires SystemInv(s, s0)
    ensures RefusedInv(Next(s, e))
  {
    hide KeeperInv, SerialInv, TxsInv, LogInv, SpaceInv, Starts, PoolAnswer, KeeperStep, Extends, Collect, Dead,
         HearAll, Seal, Inv;
    match e
    case PoolTakes =>
      if s.inbox != [] && s.inbox[0].NewTx? && !Admits(s.pool, s.inbox[0].tx) {
        RefusesOnlyDead(s, s0, s.inbox[0].tx);
      }
    case PoolAnswers => if s.phase.Selected? { PoolAnswerMoves(s); }
    case KeeperTakes => SealHistory(s.keeper);
    case KeeperTurns =>
      StepContinues(s.keeper, s0.keeper);
      KeeperStepKeepsInv(s.keeper, s0.keeper);
      LedgerInv(s.keeper, s0.keeper);
      LedgerInv(KeeperStep(s.keeper), s0.keeper);
      KeeperMovesRefused(s, KeeperStep(s.keeper));
    case _ =>
  }

  lemma LedgerInv(k: Keeper, k0: Keeper)
    requires KeeperInv(k, k0)
    ensures Inv(k.state)
  {
  }

  // ---------- Every reachable state ----------

  lemma KeeperKeeps(s: System, s0: System, e: Event)
    requires SystemInv(s, s0)
    ensures KeeperInv(Next(s, e).keeper, s0.keeper)
  {
    hide KeeperInv, SerialInv, TxsInv, LogInv, SpaceInv, RefusedInv, Starts, PoolAnswer, KeeperStep, Seal, Accept,
         HearAll;
    match e
    case PoolTakes =>
    case PoolAnswers => if s.phase.Selected? { PoolAnswerMoves(s); }
    case KeeperTakes =>
      SealKeepsInv(s.keeper, s0.keeper);
      if s.toKeeper != [] && s.toKeeper[0].MiniBlock? && !s.keeper.busy {
        AcceptKeepsInv(s.keeper, s0.keeper, s.toKeeper[0].priority, s.toKeeper[0].txs);
      }
    case KeeperTurns => KeeperStepKeepsInv(s.keeper, s0.keeper);
    case _ =>
  }

  lemma NextKeepsInv(s: System, s0: System, e: Event)
    requires SystemInv(s, s0)
    ensures SystemInv(Next(s, e), s0)
  {
    KeeperKeeps(s, s0, e);
    SerialKeeps(s, s0, e);
    TxsKeeps(s, s0, e);
    LogKeeps(s, s0, e);
    SpaceKeeps(s, s0, e);
    RefusedKeeps(s, s0, e);
    hide KeeperInv, SerialInv, TxsInv, LogInv, SpaceInv, RefusedInv, Starts, Next;
  }

  lemma {:induction false} EveryInterleaving(s0: System, events: seq<Event>)
    requires Starts(s0)
    ensures SystemInv(Play(s0, events), s0)
  {
    hide SystemInv, Next, Starts;
    if events == [] {
      StartInv(s0);
    } else {
      EveryInterleaving(s0, events[..|events| - 1]);
      NextKeepsInv(Play(s0, events[..|events| - 1]), s0, events[|events| - 1]);
    }
  }
}
