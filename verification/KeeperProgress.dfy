/** Progress of the keeper: when executing a mini-block ends, how soon an executed
    operation is sealed, and how many blocks one mini-block can seal. */
module KeeperProgress {
  import opened Types
  import opened Ledger
  import opened LedgerRuns
  import opened Blocks
  import opened Keeper

  // ---------- Termination ----------

  function Queue(k: Keeper): seq<Item> {
    PriorityItems(k.priority) + TxItems(k.txs)
  }

  /** Space asked for before a request is executed, by someone who knows these addresses to have accounts. */
  function Need(known: set<Address>, item: Item): nat {
    match item
    case Priority(p) => PriorityChunks(p.data)
    case Transaction(tx) => TxChunks(known, tx)
  }

  /** Every queued request, on the ledger it will meet, fits an empty block; nothing follows an abort. */
  predicate AllFit(s: State, items: seq<Item>, max: nat)
    decreases |items|
  {
    items == [] ||
    (&& Need(s.index.Keys, items[0]) <= max
     && match Execute(s, items[0])
        case Done(e) => AllFit(e.state, items[1..], max)
        case Rejected(_) => AllFit(s, items[1..], max)
        case Panicked => true)
  }

  predicate HeadFits(k: Keeper) {
    Queue(k) == [] || Need(k.state.index.Keys, Queue(k)[0]) <= k.pending.chunksLeft
  }

  /** Turns left at most: two per queued request, one to finish, one to seal before a head that does not fit. */
  function Rank(k: Keeper): nat {
    if !Running(k) then 0 else 1 + 2 * |Queue(k)| + if HeadFits(k) then 0 else 1
  }

  lemma SealMakesRoom(k: Keeper)
    ensures Seal(Notify(k)).halted || Seal(Notify(k)).pending.chunksLeft == Max(k.sizes)
    ensures Queue(Seal(Notify(k))) == Queue(k) && Seal(Notify(k)).state == k.state
    ensures Seal(Notify(k)).sizes == k.sizes
  {
  }

  lemma PriorityIsNeverRefused(s: State, data: PriorityData)
    ensures !ExecutePriority(s, data).Rejected?
  {
  }

  /** One turn either seals and keeps the queue, or takes the head off it, or finishes. */
  lemma StepShape(k: Keeper)
    requires Running(k) && Queue(k) != []
    ensures var next := KeeperStep(k);
            && next.sizes == k.sizes
            && (!HeadFits(k) ==> next == Seal(Notify(k)))
            && (HeadFits(k) && !next.halted ==>
                  && next.busy && next.commits == k.commits && next.blockNumber == k.blockNumber
                  && Queue(next) == Queue(k)[1..]
                  && !Execute(k.state, Queue(k)[0]).Panicked?
                  && next.state == (if Execute(k.state, Queue(k)[0]).Done?
                                    then Execute(k.state, Queue(k)[0]).value.state else k.state)
                  && next.pending.iteration == k.pending.iteration
                  && k.pending.success <= next.pending.success
                  && k.pending.chunksLeft - Need(k.state.index.Keys, Queue(k)[0]) <= next.pending.chunksLeft)
  {
    hide Seal, Notify, ExecutePriority, ExecuteTx;
    SealMakesRoom(k);
    QueueShape(k);
    if k.priority != [] {
      PriorityIsNeverRefused(k.state, k.priority[0].data);
    }
  }

  lemma QueueShape(k: Keeper)
    requires Queue(k) != []
    ensures if k.priority != [] then
              && Queue(k)[0] == Priority(k.priority[0])
              && Queue(k)[1..] == PriorityItems(k.priority[1..]) + TxItems(k.txs)
            else
              && Queue(k)[0] == Transaction(k.txs[0])
              && Queue(k)[1..] == PriorityItems([]) + TxItems(k.txs[1..])
  {
    var p, t := PriorityItems(k.priority), TxItems(k.txs);
    if k.priority == [] {
      assert Queue(k) == t && t[1..] == TxItems(k.txs[1..]);
    } else {
      assert p[1..] == PriorityItems(k.priority[1..]) && (p + t)[1..] == p[1..] + t;
    }
  }

  lemma StepDecreases(k: Keeper)
    requires Running(k) && AllFit(k.state, Queue(k), Max(k.sizes))
    ensures Rank(KeeperStep(k)) < Rank(k)
    ensures Running(KeeperStep(k)) ==> AllFit(KeeperStep(k).state, Queue(KeeperStep(k)), Max(k.sizes))
    ensures KeeperStep(k).sizes == k.sizes
  {
    if Queue(k) != [] {
      StepShape(k);
      SealMakesRoom(k);
      hide KeeperStep, Seal, Notify, Execute;
    } else {
      hide Seal;
      SealMakesRoom(k.(pending := k.pending.(iteration := k.pending.iteration + 1)));
    }
  }

  /** Execute the mini-block to its end, or to an abort. */
  function Drain(k: Keeper): Keeper
    requires Running(k) ==> AllFit(k.state, Queue(k), Max(k.sizes))
    decreases Rank(k)
  {
    if !Running(k) then k else
    StepDecreases(k);
    Drain(KeeperStep(k))
  }

  function Iterate(k: Keeper, n: nat): Keeper
    decreases n
  {
    if n == 0 then k else Iterate(KeeperStep(k), n - 1)
  }

  lemma {:induction false} DrainIsIterate(k: Keeper)
    requires Running(k) ==> AllFit(k.state, Queue(k), Max(k.sizes))
    ensures exists n: nat :: Iterate(k, n) == Drain(k)
    ensures !Running(Drain(k))
    decreases Rank(k)
  {
    if !Running(k) {
      assert Iterate(k, 0) == Drain(k);
    } else {
      StepDecreases(k);
      DrainIsIterate(KeeperStep(k));
      var n: nat :| Iterate(KeeperStep(k), n) == Drain(KeeperStep(k));
      assert Iterate(k, n + 1) == Drain(k);
    }
  }

  lemma StuckStep(k: Keeper, k0: Keeper)
    requires KeeperInv(k, k0) && Running(k) && !AllFit(k.state, Queue(k), Max(k.sizes))
    ensures var next := KeeperStep(k);
            KeeperInv(next, k0) && Running(next) && !AllFit(next.state, Queue(next), Max(next.sizes))
  {
    KeeperStepKeepsInv(k, k0);
    StepShape(k);
    SealMakesRoom(k);
    if !HeadFits(k) {
      NotifyKeepsInv(k, k0);
      SealKeepsInv(Notify(k), k0);
      SealLeavesQueues(Notify(k));
    } else {
      PendingBelowMax(k, k0);
      HeadExecutes(k, k0);
    }
  }

  lemma PendingBelowMax(k: Keeper, k0: Keeper)
    requires KeeperInv(k, k0)
    ensures k.pending.chunksLeft <= Max(k.sizes)
  {
  }

  lemma HeadExecutes(k: Keeper, k0: Keeper)
    requires KeeperInv(k, k0) && Running(k) && Queue(k) != [] && HeadFits(k)
    ensures KeeperStep(k).halted <==> Execute(k.state, Queue(k)[0]).Panicked?
  {
    hide KeeperInv, Inv, ExecuteTx, ExecutePriority, Seal, Notify;
    if k.priority != [] {
      assert Queue(k)[0] == Priority(k.priority[0]);
      PriorityIsNeverRefused(k.state, k.priority[0].data);
    } else {
      assert Queue(k)[0] == Transaction(k.txs[0]);
      TxStepKeepsInv(k, k0);
    }
  }

  lemma {:induction false} StuckForever(k: Keeper, k0: Keeper, n: nat)
    requires KeeperInv(k, k0) && Running(k) && !AllFit(k.state, Queue(k), Max(k.sizes))
    ensures Running(Iterate(k, n))
    decreases n
  {
    hide KeeperInv, AllFit, KeeperStep, Running;
    if n > 0 {
      StuckStep(k, k0);
      StuckForever(KeeperStep(k), k0, n - 1);
    }
  }

  /** Executing a mini-block ends if and only if every request fits an empty block when its turn comes;
      otherwise the keeper seals empty blocks for ever. */
  lemma BatchEnds(k: Keeper, k0: Keeper)
    requires KeeperInv(k, k0) && Running(k)
    ensures (exists n: nat :: !Running(Iterate(k, n))) <==> AllFit(k.state, Queue(k), Max(k.sizes))
  {
    if AllFit(k.state, Queue(k), Max(k.sizes)) {
      DrainIsIterate(k);
    } else {
      forall n: nat ensures Running(Iterate(k, n)) { StuckForever(k, k0, n); }
    }
  }

  // ---------- How soon an executed operation is sealed ----------

  /** Nothing leaves the pending block but into the block sealed from it. */
  ghost predicate Grows(k: Keeper, next: Keeper) {
    && k.commits <= next.commits
    && (if |next.commits| == |k.commits| then k.pending.success <= next.pending.success
        else k.pending.success <= next.commits[|k.commits|].block.transactions)
  }

  lemma GrowsTransitive(a: Keeper, b: Keeper, c: Keeper)
    requires Grows(a, b) && Grows(b, c)
    ensures Grows(a, c)
  {
  }

  lemma SealGrows(k: Keeper)
    requires k.halted || !Seal(k).halted
    requires FirstFit(ChunksUsed(k.pending.success + k.pending.failed), k.sizes).Some?
    ensures Grows(k, Seal(k)) && |Seal(k).commits| == |k.commits| + 1
    ensures Seal(k).pending.success == [] && Seal(k).pending.iteration == 0
  {
  }

  /** The pending block of an idle keeper has aged since its first operation, and has no age before. */
  predicate Aged(k: Keeper) {
    k.pending.iteration <= MAX_ITERATIONS && (k.pending.success == [] <==> k.pending.iteration == 0)
  }

  /** Running a mini-block to its end ages the pending block by one, unless a block was sealed. */
  ghost predicate Older(k: Keeper, end: Keeper) {
    && Grows(k, end)
    && Aged(end)
    && (|end.commits| == |k.commits| && k.pending.success != [] ==> end.pending.iteration == k.pending.iteration + 1)
  }

  lemma FinishAges(k: Keeper, k0: Keeper)
    requires KeeperInv(k, k0) && Running(k) && Queue(k) == []
    requires k.pending.iteration <= MAX_ITERATIONS && (k.pending.success == [] ==> k.pending.iteration == 0)
    ensures Older(k, Finish(k)) && !Running(Finish(k)) && !Finish(k).halted
  {
    hide Inv, RunAll, ChainOk, Initial, Seal, ChunksUsed;
    assert |k.priority| == 0 && |k.txs| == 0;
    var aged := k.(pending := k.pending.(iteration := k.pending.iteration + 1));
    if k.pending.success != [] && aged.pending.iteration > MAX_ITERATIONS {
      assert KeeperInv(aged, k0);
      NotifyKeepsInv(aged, k0);
      SealKeepsInv(Notify(aged), k0);
      SealLeavesQueues(Notify(aged));
      SealIsSome(Notify(aged), k0);
      SealGrows(Notify(aged));
    }
  }

  lemma SealIsSome(k: Keeper, k0: Keeper)
    requires KeeperInv(k, k0)
    ensures FirstFit(ChunksUsed(k.pending.success + k.pending.failed), k.sizes).Some?
  {
    SealFits(k, BaseAt(k0, k.commits, |k.commits|));
  }

  lemma StepGrows(k: Keeper, k0: Keeper)
    requires KeeperInv(k, k0) && Running(k) && Queue(k) != [] && !KeeperStep(k).halted
    ensures Grows(k, KeeperStep(k))
    ensures KeeperStep(k).pending.iteration == if |KeeperStep(k).commits| == |k.commits| then k.pending.iteration else 0
  {
    hide KeeperInv, KeeperStep, Seal, ChunksUsed;
    StepShape(k);
    if !HeadFits(k) {
      NotifyKeepsInv(k, k0);
      SealIsSome(Notify(k), k0);
      SealGrows(Notify(k));
    }
  }

  lemma {:induction false} DrainAges(k: Keeper, k0: Keeper)
    requires KeeperInv(k, k0) && Running(k) && AllFit(k.state, Queue(k), Max(k.sizes))
    requires k.pending.iteration <= MAX_ITERATIONS && (k.pending.success == [] ==> k.pending.iteration == 0)
    ensures !Drain(k).halted ==> Older(k, Drain(k)) && KeeperInv(Drain(k), k0)
    decreases Rank(k)
  {
    hide KeeperInv, KeeperStep, AllFit;
    StepDecreases(k);
    KeeperStepKeepsInv(k, k0);
    var next := KeeperStep(k);
    if Queue(k) == [] {
      StepIsFinish(k);
      FinishAges(k, k0);
    } else if next.halted {
      assert Drain(next) == next;
    } else {
      StepShape(k);
      StepGrows(k, k0);
      StillBusy(k, k0);
      DrainAges(next, k0);
      if !Drain(k).halted {
        GrowsTransitive(k, next, Drain(next));
      }
    }
  }

  lemma StepIsFinish(k: Keeper)
    requires Running(k) && Queue(k) == []
    ensures KeeperStep(k) == Finish(k)
  {
    assert |k.priority| == 0 && |k.txs| == 0;
  }

  lemma StillBusy(k: Keeper, k0: Keeper)
    requires KeeperInv(k, k0) && Running(k) && Queue(k) != [] && !KeeperStep(k).halted
    ensures Running(KeeperStep(k))
  {
    StepShape(k);
    SealLeavesQueues(Notify(k));
  }

  // ---------- Requests ----------

  /** None when a mini-block never ends. */
  function Handle(k: Keeper, request: Request): Option<Keeper> {
    if k.halted then Some(k) else
    match request
    case SealBlock => Some(Seal(k))
    case MiniBlock(priority, txs) =>
      var taken := Accept(k, priority, txs);
      if AllFit(k.state, Queue(taken), Max(k.sizes)) then Some(Drain(taken)) else None
  }

  function HandleAll(k: Keeper, requests: seq<Request>): Option<Keeper> {
    if requests == [] then Some(k) else
    match HandleAll(k, requests[..|requests| - 1])
    case None => None
    case Some(before) => Handle(before, requests[|requests| - 1])
  }

  function MiniBlocks(requests: seq<Request>): nat {
    if requests == [] then 0 else
    MiniBlocks(requests[..|requests| - 1]) + if requests[|requests| - 1].MiniBlock? then 1 else 0
  }

  ghost predicate Idle(k: Keeper, k0: Keeper) {
    KeeperInv(k, k0) && !k.busy && !k.halted && Aged(k)
  }

  lemma HandleAges(k: Keeper, k0: Keeper, request: Request)
    requires Idle(k, k0) && Handle(k, request).Some? && !Handle(k, request).value.halted
    ensures var next := Handle(k, request).value;
            Idle(next, k0) && (if request.MiniBlock? then Older(k, next) else Grows(k, next)) &&
            (|next.commits| == |k.commits| ==> request.MiniBlock?)
  {
    hide KeeperInv, Seal, KeeperStep, AllFit;
    match request
    case SealBlock =>
      SealIsSome(k, k0);
      SealGrows(k);
      SealKeepsInv(k, k0);
      SealLeavesQueues(k);
    case MiniBlock(priority, txs) =>
      var taken := Accept(k, priority, txs);
      AcceptKeepsInv(k, k0, priority, txs);
      DrainAges(taken, k0);
      DrainIsIterate(taken);
  }

  /** While its block is not sealed, the pending block has aged by one for every mini-block handled. */
  lemma {:induction false} RequestsAge(k: Keeper, k0: Keeper, requests: seq<Request>)
    requires Idle(k, k0) && HandleAll(k, requests).Some? && !HandleAll(k, requests).value.halted
    ensures var end := HandleAll(k, requests).value;
            && Idle(end, k0) && Grows(k, end)
            && (|end.commits| == |k.commits| && k.pending.success != [] ==>
                  end.pending.iteration == k.pending.iteration + MiniBlocks(requests))
  {
    if requests == [] {
      hide Idle;
    } else {
      hide Idle, Handle, Aged;
      HaltedStays(k, requests);
      RequestsAge(k, k0, requests[..|requests| - 1]);
      var before, end := HandleAll(k, requests[..|requests| - 1]).value, HandleAll(k, requests).value;
      HandleAges(before, k0, requests[|requests| - 1]);
      GrowsTransitive(k, before, end);
      if |end.commits| == |k.commits| && k.pending.success != [] {
        assert |before.commits| == |k.commits| && before.pending.success != [];
      }
    }
  }

  lemma HaltedStays(k: Keeper, requests: seq<Request>)
    requires requests != [] && HandleAll(k, requests).Some? && !HandleAll(k, requests).value.halted
    ensures HandleAll(k, requests[..|requests| - 1]).Some?
    ensures !HandleAll(k, requests[..|requests| - 1]).value.halted
  {
  }

  /** An operation waiting in the pending block of an idle keeper is in a sealed block after 50 more mini-blocks,
      whatever they hold and whatever seal requests come between: in the block numbered as pending now. */
  lemma SealedWithinFifty(k: Keeper, k0: Keeper, requests: seq<Request>)
    requires Idle(k, k0) && k.pending.success != []
    requires MiniBlocks(requests) >= MAX_ITERATIONS
    requires HandleAll(k, requests).Some? && !HandleAll(k, requests).value.halted
    ensures var end := HandleAll(k, requests).value;
            && |end.commits| > |k.commits|
            && k.pending.success <= end.commits[|k.commits|].block.transactions
  {
    hide HandleAll, KeeperInv;
    RequestsAge(k, k0, requests);
  }
}
