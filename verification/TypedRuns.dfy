/** What is typed stays typed on its way through the pipeline, from the wallets and the contract to the blocks. */
module TypedRuns {
  import opened Types
  import opened Ledger
  import opened EthWatch
  import opened Mempool
  import opened Keeper
  import opened PublishedBlocks
  import opened Pipeline
  import opened PipelineInv
  import opened PipelineRuns

  predicate TypedOps(ops: seq<PriorityOp>) {
    forall i | 0 <= i < |ops| :: TypedItem(Priority(ops[i]))
  }

  predicate TypedTxs(txs: seq<Tx>) {
    forall i | 0 <= i < |txs| :: TypedItem(Transaction(txs[i]))
  }

  ghost predicate TypedQueue(queue: PriorityQueue) {
    forall n | n in queue :: TypedItem(Priority(queue[n]))
  }

  /** What enters the pipeline from outside is typed. */
  predicate TypedEvent(e: Event) {
    match e
    case Poll(ops) => TypedOps(ops)
    case Submit(tx) => TypedItem(Transaction(tx))
    case _ => true
  }

  ghost predicate TypedInputs(s: System, events: seq<Event>) {
    TypedQueue(s.watcher) && forall i | 0 <= i < |events| :: TypedEvent(events[i])
  }

  predicate TypedMessage(message: Message) {
    message.NewTx? ==> TypedItem(Transaction(message.tx))
  }

  predicate TypedRequest(request: Request) {
    request.MiniBlock? ==> TypedOps(request.priority) && TypedTxs(request.txs)
  }

  predicate TypedPhase(phase: Phase) {
    match phase
    case Selected(ops) => TypedOps(ops)
    case Answered(ops, txs) => TypedOps(ops) && TypedTxs(txs)
    case _ => true
  }

  ghost predicate TypedSystem(s: System) {
    && TypedQueue(s.watcher)
    && (forall i | 0 <= i < |s.inbox| :: TypedMessage(s.inbox[i]))
    && TypedTxs(s.pool.ready)
    && TypedPhase(s.phase)
    && (forall i | 0 <= i < |s.toKeeper| :: TypedRequest(s.toKeeper[i]))
    && AllTypedItems(s.keeper.accepted)
  }

  lemma {:induction false} CollectTyped(queue: PriorityQueue, ops: seq<PriorityOp>)
    requires TypedQueue(queue) && TypedOps(ops)
    ensures TypedQueue(Collect(queue, ops))
  {
    hide TypedItem;
    if ops != [] {
      CollectTyped(queue, ops[..|ops| - 1]);
    }
  }

  lemma SelectTyped(queue: PriorityQueue, first: nat, room: nat)
    requires TypedQueue(queue)
    ensures TypedOps(Select(queue, first, room, []))
  {
    hide TypedItem;
    var ops := Select(queue, first, room, []);
    forall i | 0 <= i < |ops| ensures TypedItem(Priority(ops[i])) {
      assert Stored(queue, first + i, ops[i]);
    }
  }

  lemma HearKeepsReady(pool: Pool, us: Updates)
    ensures HearAll(pool, us).ready == pool.ready
  {
  }

  lemma PoolTakeTyped(s: System)
    requires TypedSystem(s) && s.inbox != []
    ensures TypedSystem(PoolTake(s))
  {
    hide TypedItem, HearAll, Admits, TypedQueue, TypedPhase, TypedRequest, AllTypedItems;
    assert TypedMessage(s.inbox[0]);
    if s.inbox[0].UpdateNonces? {
      HearKeepsReady(s.pool, s.inbox[0].updates);
    }
    NoPhaseTyped(s);
  }

  lemma NoPhaseTyped(s: System)
    ensures s.inbox != [] && s.inbox[0].GetBlock? ==> TypedPhase(Selecting(s.inbox[0].first))
  {
  }

  lemma PoolAnswerTyped(s: System)
    requires TypedSystem(s) && s.phase.Selected?
    ensures TypedSystem(PoolAnswer(s))
  {
    hide TypedItem, TypedQueue, TypedMessage, TypedRequest, AllTypedItems, CountFitting, ChunksOf;
  }

  lemma AcceptTyped(k: Keeper, priority: seq<PriorityOp>, txs: seq<Tx>)
    requires AllTypedItems(k.accepted) && TypedOps(priority) && TypedTxs(txs)
    ensures AllTypedItems(Accept(k, priority, txs).accepted)
  {
    hide TypedItem;
    var accepted := Accept(k, priority, txs).accepted;
    var n, m := |k.accepted|, |k.accepted| + |priority|;
    forall i | 0 <= i < |accepted| ensures TypedItem(accepted[i]) {
      assert accepted[i] == if i < n then k.accepted[i]
                            else if i < m then Priority(priority[i - n]) else Transaction(txs[i - m]);
    }
  }

  lemma KeeperTakeTyped(s: System)
    requires TypedSystem(s) && s.toKeeper != []
    ensures TypedSystem(KeeperTake(s))
  {
    hide TypedItem, TypedQueue, TypedMessage, TypedOps, TypedTxs, TypedPhase, AllTypedItems, Seal, Accept;
    assert TypedRequest(s.toKeeper[0]);
    match s.toKeeper[0]
    case MiniBlock(priority, txs) => AcceptTyped(s.keeper, priority, txs);
    case SealBlock => SealHistory(s.keeper);
  }

  lemma NextTyped(s: System, e: Event)
    requires TypedSystem(s) && TypedEvent(e)
    ensures TypedSystem(Next(s, e))
  {
    hide TypedItem, TypedQueue, TypedOps, TypedTxs, AllTypedItems, PoolTake, PoolAnswer, KeeperTake, KeeperStep,
         Dropped;
    match e
    case Poll(ops) => CollectTyped(s.watcher, ops);
    case PoolTakes => if s.inbox != [] { PoolTakeTyped(s); }
    case WatcherAnswers => if s.phase.Selecting? { SelectTyped(s.watcher, s.phase.first, Max(s.keeper.sizes)); }
    case PoolAnswers => if s.phase.Selected? { PoolAnswerTyped(s); }
    case KeeperTakes => if s.toKeeper != [] { KeeperTakeTyped(s); }
    case KeeperTurns => StepHistory(s.keeper);
    case _ =>
  }

  lemma {:induction false} PlayTyped(s0: System, events: seq<Event>)
    requires Starts(s0) && TypedInputs(s0, events)
    ensures TypedSystem(Play(s0, events))
  {
    hide TypedEvent, TypedQueue, Next;
    if events == [] {
      StartTyped(s0);
    } else {
      PlayTyped(s0, events[..|events| - 1]);
      NextTyped(Play(s0, events[..|events| - 1]), events[|events| - 1]);
    }
  }

  lemma StartTyped(s: System)
    requires Starts(s) && TypedQueue(s.watcher)
    ensures TypedSystem(s)
  {
  }

  lemma {:induction false} TakenTyped(commits: seq<Commit>)
    requires AllTypedItems(Taken(commits))
    ensures forall i | 0 <= i < |commits| :: AllTypedItems(commits[i].items)
  {
    hide TypedItem;
    if commits != [] {
      var n := |commits| - 1;
      var before, items := Taken(commits[..n]), commits[n].items;
      forall j | 0 <= j < |before| ensures TypedItem(before[j]) { assert before[j] == (before + items)[j]; }
      forall j | 0 <= j < |items| ensures TypedItem(items[j]) { assert items[j] == (before + items)[|before| + j]; }
      TakenTyped(commits[..n]);
    }
  }

  /** Every sealed block holds typed requests only, whatever the interleaving. */
  lemma SealsOnlyTyped(s0: System, events: seq<Event>)
    requires Starts(s0) && TypedInputs(s0, events)
    ensures TypedChain(Play(s0, events).keeper)
  {
    hide Play, Starts, TypedInputs, TypedItem, SerialInv, TxsInv, LogInv, SpaceInv, RefusedInv;
    PlayTyped(s0, events);
    EveryInterleaving(s0, events);
    var k := Play(s0, events).keeper;
    AcceptedHoldsTaken(k, s0.keeper);
    forall i | 0 <= i < |Taken(k.commits)| ensures TypedItem(Taken(k.commits)[i]) {
      assert Taken(k.commits)[i] == k.accepted[i];
    }
    TakenTyped(k.commits);
  }

  lemma AcceptedHoldsTaken(k: Keeper, k0: Keeper)
    requires KeeperInv(k, k0)
    ensures Taken(k.commits) <= k.accepted
  {
  }
}
