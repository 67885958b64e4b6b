/** The pipeline's guarantees, for every start and every interleaving of its components' steps. */
module PipelineTheorems {
  import opened Types
  import opened Ledger
  import opened LedgerRuns
  import opened Blocks
  import opened Mempool
  import opened Keeper
  import opened KeeperBlocks
  import opened KeeperNotes
  import opened KeeperProgress
  import opened KeeperBudget
  import opened Pipeline
  import opened PipelineInv
  import opened PipelineRuns
  import N = Nonces

  // ---------- Priority operations ----------

  function RequestedIn(op: ExecutedOp): seq<PriorityOp> {
    if op.ExecutedPriority? then [op.request] else []
  }

  lemma {:induction false} LandingRequests(done: seq<Effect>)
    ensures |Gather(RequestedIn, Landing(done))| == CountPriority(done)
  {
    if done != [] {
      assert Landing(done)[..|done| - 1] == Landing(done[..|done| - 1]);
      LandingRequests(done[..|done| - 1]);
    }
  }

  lemma {:induction false} LostRequests(refused: seq<Refusal>)
    ensures Gather(RequestedIn, Lost(refused)) == []
  {
    if refused != [] {
      assert Lost(refused)[..|refused| - 1] == Lost(refused[..|refused| - 1]);
      LostRequests(refused[..|refused| - 1]);
    }
  }

  /** In a run without an abort no priority request is refused: all of them land, in order. */
  lemma {:induction false} PriorityLands(s: State, items: seq<Item>)
    requires !RunAll(s, items).halted
    ensures Gather(RequestedIn, Landing(RunAll(s, items).done)) == Gather(PriorityIn, items)
  {
    if items != [] {
      hide Execute;
      var before, last := RunAll(s, items[..|items| - 1]), items[|items| - 1];
      PriorityLands(s, items[..|items| - 1]);
      if Execute(before.state, last).Done? {
        var e := Execute(before.state, last).value;
        LandOneMore(before.done, Effect(last, e.op, e.updates));
        GatherMore(RequestedIn, Landing(before.done), Land(Effect(last, e.op, e.updates), |before.done|));
      }
    }
  }

  /** A sealed block's priority requests are as many as its interval is long, and are those it took. */
  lemma BlockRequests(k: Keeper, k0: Keeper, i: nat)
    requires KeeperInv(k, k0) && i < |k.commits|
    ensures var c := k.commits[i];
            && Gather(RequestedIn, c.block.transactions) == Gather(PriorityIn, c.items)
            && c.block.priorityOps.0 == UnprocessedAt(k0, k.commits, i)
            && c.block.priorityOps.1 == UnprocessedAt(k0, k.commits, i) + |Gather(PriorityIn, c.items)|
  {
    hide KeeperInv, RunAll, Landing, Lost, Gather;
    var c := k.commits[i];
    CommitHolds(k, k0, i);
    var r := RunAll(BaseAt(k0, k.commits, i), c.items);
    GatherConcat(RequestedIn, Landing(r.done), Lost(r.refused));
    LostRequests(r.refused);
    PriorityLands(BaseAt(k0, k.commits, i), c.items);
    LandingRequests(r.done);
  }

  /** The counter a block starts from is the first one plus the priority requests taken before it. */
  lemma {:induction false} CounterAt(k: Keeper, k0: Keeper, i: nat)
    requires KeeperInv(k, k0) && i <= |k.commits|
    ensures UnprocessedAt(k0, k.commits, i) == k0.unprocessed + |Gather(PriorityIn, Taken(k.commits[..i]))|
  {
    hide KeeperInv, Gather;
    if i > 0 {
      CounterAt(k, k0, i - 1);
      BlockRequests(k, k0, i - 1);
      assert k.commits[..i][..i - 1] == k.commits[..i - 1];
      GatherConcat(PriorityIn, Taken(k.commits[..i - 1]), k.commits[i - 1].items);
    } else {
      GatherNothing();
    }
  }

  lemma GatherNothing()
    ensures Gather(PriorityIn, []) == []
  {
  }

  lemma CounterNow(k: Keeper, k0: Keeper)
    requires KeeperInv(k, k0)
    ensures k.unprocessed == k0.unprocessed + |Gather(PriorityIn, Taken(k.commits) + k.pending.items)|
  {
    var n := |k.commits|;
    CounterAt(k, k0, n);
    assert k.commits[..n] == k.commits;
    var r := RunAll(BaseAt(k0, k.commits, n), k.pending.items);
    PriorityLands(BaseAt(k0, k.commits, n), k.pending.items);
    LandingRequests(r.done);
    GatherConcat(PriorityIn, Taken(k.commits), k.pending.items);
  }

  lemma AcceptedInOrder(k: Keeper, k0: Keeper)
    requires KeeperInv(k, k0)
    ensures k.accepted == Taken(k.commits) + k.pending.items + PriorityItems(k.priority) + TxItems(k.txs)
  {
    hide Inv, Initial, ChainOk, PendingOk, Taken, PriorityItems, TxItems;
  }

  /** What the keeper has accepted, split into what it has taken and what it still holds. */
  lemma AcceptedPriority(k: Keeper, k0: Keeper)
    requires KeeperInv(k, k0)
    ensures Gather(PriorityIn, k.accepted) == Gather(PriorityIn, Taken(k.commits) + k.pending.items) + k.priority
    ensures Gather(TxIn, k.accepted) == Gather(TxIn, Taken(k.commits) + k.pending.items) + k.txs
  {
    var taken, p, t := Taken(k.commits) + k.pending.items, PriorityItems(k.priority), TxItems(k.txs);
    hide *;
    AcceptedInOrder(k, k0);
    GatherConcat(PriorityIn, taken + p, t);
    GatherConcat(PriorityIn, taken, p);
    GatherConcat(TxIn, taken + p, t);
    GatherConcat(TxIn, taken, p);
    GatherPriorityItems(k.priority);
    GatherTxItems(k.txs);
  }

  /** The proposer's counter is the keeper's plus what is in flight; what is in flight carries exactly the serial ids
      between the two; and what was executed carries the ones from the start up to the keeper's counter. */
  lemma PriorityOnceInOrder(s0: System, events: seq<Event>)
    requires Starts(s0)
    ensures var s := Play(s0, events);
            var flying := s.keeper.priority + Gather(OpsIn, s.toKeeper);
            var executed := Gather(PriorityIn, Taken(s.keeper.commits) + s.keeper.pending.items);
            && s.counter == s.keeper.unprocessed + |flying|
            && Serial(flying, s.keeper.unprocessed)
            && s.keeper.unprocessed == s0.keeper.unprocessed + |executed|
            && Serial(executed, s0.keeper.unprocessed)
  {
    hide Play, Starts, KeeperInv, TxsInv, LogInv, SpaceInv, RefusedInv, Gather, Taken;
    EveryInterleaving(s0, events);
    var s := Play(s0, events);
    CounterNow(s.keeper, s0.keeper);
    AcceptedPriority(s.keeper, s0.keeper);
    var flying := s.keeper.priority + Gather(OpsIn, s.toKeeper);
    var executed := Gather(PriorityIn, Taken(s.keeper.commits) + s.keeper.pending.items);
    var out := Gather(PriorityIn, s.keeper.accepted) + Gather(OpsIn, s.toKeeper);
    assert out == executed + flying;
    SerialSplit(executed, flying, s0.keeper.unprocessed);
  }

  lemma SerialSplit(a: seq<PriorityOp>, b: seq<PriorityOp>, n: nat)
    requires Serial(a + b, n)
    ensures Serial(a, n) && Serial(b, n + |a|)
  {
    forall i | 0 <= i < |a| ensures a[i].serialId == n + i {
      assert (a + b)[i] == a[i];
    }
    forall i | 0 <= i < |b| ensures b[i].serialId == n + |a| + i {
      assert (a + b)[|a| + i] == b[i];
    }
  }

  /** Each sealed block executes exactly the priority operations its interval announces. */
  lemma BlockIntervalsAreTrue(s0: System, events: seq<Event>, i: nat)
    requires Starts(s0) && i < |Play(s0, events).keeper.commits|
    ensures var b := Play(s0, events).keeper.commits[i].block;
            var ops := Gather(RequestedIn, b.transactions);
            Serial(ops, b.priorityOps.0) && b.priorityOps.1 == b.priorityOps.0 + |ops|
  {
    hide Play, Starts, KeeperInv, TxsInv, LogInv, SpaceInv, RefusedInv, SerialInv, Gather, Taken, Serial;
    PriorityOnceInOrder(s0, events);
    EveryInterleaving(s0, events);
    var k := Play(s0, events).keeper;
    BlockRequests(k, s0.keeper, i);
    CounterAt(k, s0.keeper, i);
    SerialInBlock(k, i, s0.keeper.unprocessed);
  }

  lemma SerialInBlock(k: Keeper, i: nat, n: nat)
    requires i < |k.commits| && Serial(Gather(PriorityIn, Taken(k.commits) + k.pending.items), n)
    ensures Serial(Gather(PriorityIn, k.commits[i].items), n + |Gather(PriorityIn, Taken(k.commits[..i]))|)
  {
    hide Gather, Taken, Serial;
    var before, items := Taken(k.commits[..i]), k.commits[i].items;
    var rest := TakenAfter(k, i);
    GatherConcat(PriorityIn, before + items, rest);
    GatherConcat(PriorityIn, before, items);
    SerialSplit(Gather(PriorityIn, before + items), Gather(PriorityIn, rest), n);
    SerialSplit(Gather(PriorityIn, before), Gather(PriorityIn, items), n);
  }

  lemma TakenAfter(k: Keeper, i: nat) returns (rest: seq<Item>)
    requires i < |k.commits|
    ensures Taken(k.commits) + k.pending.items == Taken(k.commits[..i]) + k.commits[i].items + rest
  {
    var more := TakenSplit(k.commits, i + 1);
    assert k.commits[..i + 1][..i] == k.commits[..i];
    rest := more + k.pending.items;
  }

  lemma {:induction false} TakenSplit(commits: seq<Commit>, i: nat) returns (rest: seq<Item>)
    requires i <= |commits|
    ensures Taken(commits) == Taken(commits[..i]) + rest
  {
    if i == |commits| {
      assert commits[..i] == commits;
      rest := [];
    } else {
      var n := |commits| - 1;
      var more := TakenSplit(commits[..n], i);
      assert commits[..n][..i] == commits[..i];
      rest := more + commits[n].items;
    }
  }

  // ---------- Transactions ----------

  /** Every transaction the mempool admitted is in exactly one place, in the order it was admitted: executed or
      refused by the keeper, queued there, on its way there, or waiting in the mempool. */
  lemma TransactionsOnceInOrder(s0: System, events: seq<Event>)
    requires Starts(s0)
    ensures var s := Play(s0, events);
            s.admitted == Gather(TxIn, Taken(s.keeper.commits) + s.keeper.pending.items) + s.keeper.txs
                          + Gather(TxsIn, s.toKeeper) + (if s.phase.Answered? then s.phase.txs else []) + s.pool.ready
  {
    hide Play, Starts, KeeperInv, SerialInv, LogInv, SpaceInv, RefusedInv, Gather, Taken;
    EveryInterleaving(s0, events);
    AcceptedPriority(Play(s0, events).keeper, s0.keeper);
  }

  // ---------- Space ----------

  /** Whatever mini-block the keeper is executing, it will end, and from its first request to its last it seals
      at most one block. */
  lemma EveryMiniBlockEndsAndSealsOnce(s0: System, events: seq<Event>)
    requires Starts(s0) && Running(Play(s0, events).keeper)
    ensures var s := Play(s0, events);
            && AllFit(s.keeper.state, Queue(s.keeper), Max(s.keeper.sizes))
            && s.started <= |s.keeper.commits| <= |Drain(s.keeper).commits| <= s.started + 1
  {
    EveryInterleaving(s0, events);
    hide Play, Starts, KeeperInv, SerialInv, TxsInv, LogInv, RefusedInv, Inv, Extends, Demand, AllFit, Queue;
    var s := Play(s0, events);
    LedgerInv(s.keeper, s0.keeper);
    assert Budget(s.keeper, s.started);
    BudgetFits(s.keeper, s0.keeper, s.started);
    DemandFits(s.keeper.state, Queue(s.keeper), Max(s.keeper.sizes));
    OneSealPerMiniBlock(s.keeper, s0.keeper, s.started);
    DrainKeepsCommits(s.keeper);
  }

  lemma BudgetFits(k: Keeper, k0: Keeper, base: nat)
    requires KeeperInv(k, k0) && Budget(k, base) && Running(k)
    ensures Demand(k.state.index.Keys, Queue(k)) <= Max(k.sizes)
  {
    hide Demand;
    PendingBelowMax(k, k0);
    hide KeeperInv;
  }

  lemma {:induction false} DrainKeepsCommits(k: Keeper)
    requires Running(k) ==> AllFit(k.state, Queue(k), Max(k.sizes))
    ensures |k.commits| <= |Drain(k).commits|
    decreases Rank(k)
  {
    hide KeeperStep, AllFit, Queue;
    if Running(k) {
      StepDecreases(k);
      StepHistory(k);
      DrainKeepsCommits(KeeperStep(k));
    }
  }

  // ---------- Refused transactions ----------

  /** A transaction the mempool turned away cannot be executed, now or after any further requests. */
  lemma RefusedNeverSucceed(s0: System, events: seq<Event>, tx: Tx, items: seq<Item>)
    requires Starts(s0) && tx in Play(s0, events).refused
    ensures !ExecuteTx(RunAll(Play(s0, events).keeper.state, items).state, tx).Done?
  {
    hide Play, Starts, KeeperInv, SerialInv, TxsInv, LogInv, SpaceInv, RunAll, Inv, Extends, ExecuteTx, N.NonceOf;
    EveryInterleaving(s0, events);
    var s := Play(s0, events).keeper.state;
    LedgerInv(Play(s0, events).keeper, s0.keeper);
    RunKeepsInv(s, items);
    var later := RunAll(s, items).state;
    DeadStays(s, later, tx);
    if ExecuteTx(later, tx).Done? {
      N.ExecuteSpendsNonce(later, Transaction(tx), tx.Sender());
    }
  }

  /** What the mempool has heard is a prefix of what the sealed blocks logged, and its nonces are the replay of that. */
  lemma MempoolReplaysLog(s0: System, events: seq<Event>)
    requires Starts(s0)
    ensures var s := Play(s0, events);
            && s.heard <= SealedUpdates(s.keeper.commits)
            && s.pool.nonces == HearAll(s0.pool, s.heard).nonces
            && (forall a :: NonceIn(s.pool, a) <= N.NonceOf(s.keeper.state, a))
  {
    EveryInterleaving(s0, events);
    var s := Play(s0, events);
    PoolNeverAhead(s, s0);
    SealedUpdatesPrefix(s.keeper.commits, s.delivered);
    hide Play, Starts, KeeperInv, SerialInv, TxsInv, SpaceInv, RefusedInv, HearAll;
  }

  // ---------- Notifications ----------

  lemma NextKeepsNotes(s: System, s0: System, e: Event, n0: nat)
    requires SystemInv(s, s0) && NotesInv(s.keeper, n0)
    ensures NotesInv(Next(s, e).keeper, n0)
  {
    hide NotesInv, KeeperInv, SerialInv, TxsInv, LogInv, SpaceInv, RefusedInv, Starts, PoolAnswer, KeeperStep, Seal,
         Accept, HearAll;
    match e
    case PoolTakes =>
    case PoolAnswers => if s.phase.Selected? { PoolAnswerMoves(s); }
    case KeeperTakes =>
      if s.toKeeper != [] && !s.keeper.busy {
        NothingUnannounced(s.keeper, s0.keeper);
        SealKeepsNotes(s.keeper, n0);
        AcceptKeepsNotes(s.keeper, n0, OpsIn(s.toKeeper[0]), TxsIn(s.toKeeper[0]));
      }
    case KeeperTurns => KeeperStepKeepsNotes(s.keeper, n0);
    case _ =>
  }

  lemma NothingUnannounced(k: Keeper, k0: Keeper)
    requires KeeperInv(k, k0) && !k.busy
    ensures k.executed == []
  {
  }

  lemma {:induction false} NotesHold(s0: System, events: seq<Event>)
    requires Starts(s0)
    ensures NotesInv(Play(s0, events).keeper, s0.keeper.blockNumber)
  {
    hide NotesInv, Next;
    if events == [] {
      InitialNotes(s0.keeper);
    } else {
      hide Starts;
      NotesHold(s0, events[..|events| - 1]);
      EveryInterleaving(s0, events[..|events| - 1]);
      NextKeepsNotes(Play(s0, events[..|events| - 1]), s0, events[|events| - 1], s0.keeper.blockNumber);
    }
  }

  /** Whenever the keeper is between mini-blocks: every request it took, refused ones included, was announced once and
      in order, and what was announced under a block's number is exactly that block's transactions. */
  lemma EveryRequestAnnouncedOnce(s0: System, events: seq<Event>, number: nat)
    requires Starts(s0) && !Play(s0, events).keeper.busy
    ensures var k0, k := s0.keeper, Play(s0, events).keeper;
            && Requests(AllAnnounced(k.notes)) == Taken(k.commits) + k.pending.items
            && k.blockNumber == k0.blockNumber + |k.commits|
            && (k0.blockNumber <= number < k.blockNumber ==>
                  Announces(Announced(k.notes, number), k.commits[number - k0.blockNumber].block.transactions))
            && (number == k.blockNumber ==> Announces(Announced(k.notes, number), k.pending.success + k.pending.failed))
            && (number > k.blockNumber ==> Announced(k.notes, number) == [])
  {
    EveryInterleaving(s0, events);
    NotesHold(s0, events);
    NothingUnannounced(Play(s0, events).keeper, s0.keeper);
    hide Play, Starts, KeeperInv, SerialInv, TxsInv, LogInv, SpaceInv, RefusedInv;
    AnnouncedTruthfully(Play(s0, events).keeper, s0.keeper.blockNumber, number);
  }

  // ---------- Fees ----------

  /** In every interleaving the fee account is in the ledger, now and after any further requests, so collecting fees
      never aborts. */
  lemma FeeAccountStands(s0: System, events: seq<Event>, items: seq<Item>)
    requires Starts(s0)
    ensures var k := Play(s0, events).keeper; k.feeAccount in RunAll(k.state, items).state.accounts
  {
    EveryInterleaving(s0, events);
    var k := Play(s0, events).keeper;
    FeeAccountHere(k, s0.keeper);
    hide Play, Starts, KeeperInv, SerialInv, TxsInv, LogInv, SpaceInv, RefusedInv, Inv;
    RunKeepsInv(k.state, items);
  }

  lemma FeeAccountHere(k: Keeper, k0: Keeper)
    requires KeeperInv(k, k0)
    ensures Inv(k.state) && k.feeAccount in k.state.accounts
  {
  }
}
