/** When the keeper seals and when it leaves its block open: the other half of how soon an operation is sealed. */
module KeeperOpen {
  import opened Types
  import opened Ledger
  import opened LedgerRuns
  import opened Blocks
  import opened Keeper
  import opened KeeperProgress
  import opened KeeperBudget

  /** The next request has no room, or there is none left and the block has been open for too long. */
  predicate MustSeal(k: Keeper) {
    if Queue(k) != [] then Need(k.state.index.Keys, Queue(k)[0]) > k.pending.chunksLeft
    else k.pending.success != [] && k.pending.iteration >= MAX_ITERATIONS
  }

  lemma FinishSealsExactly(k: Keeper, k0: Keeper)
    requires KeeperInv(k, k0) && Running(k)
    ensures var tooOld := k.pending.success != [] && k.pending.iteration >= MAX_ITERATIONS;
            && |Finish(k).commits| == |k.commits| + (if tooOld then 1 else 0)
            && (!tooOld ==> Finish(k).commits == k.commits)
  {
    SealIsSome(k, k0);
    hide FirstFit, ChunksUsed, KeeperInv;
  }

  /** A turn of the keeper seals one block if it must, and otherwise none. */
  lemma TurnSealsExactly(k: Keeper, k0: Keeper)
    requires KeeperInv(k, k0) && Running(k)
    ensures |KeeperStep(k).commits| == |k.commits| + (if MustSeal(k) then 1 else 0)
    ensures !MustSeal(k) ==> KeeperStep(k).commits == k.commits
  {
    hide KeeperInv, KeeperStep, Finish, Seal, ChunksUsed, Execute;
    var next := KeeperStep(k);
    if Queue(k) == [] {
      StepIsFinish(k);
      FinishSealsExactly(k, k0);
    } else if !HeadFits(k) {
      StepShape(k);
      NotifyKeepsInv(k, k0);
      SealIsSome(Notify(k), k0);
      SealOnce(Notify(k));
    } else if next.halted {
      HaltSealsNothing(k);
    } else {
      StepShape(k);
    }
  }

  lemma SealOnce(k: Keeper)
    requires FirstFit(ChunksUsed(k.pending.success + k.pending.failed), k.sizes).Some?
    ensures |Seal(k).commits| == |k.commits| + 1
  {
  }

  // ---------- As long as there is room ----------

  function Spare(k: Keeper): int {
    k.pending.chunksLeft - Demand(k.state.index.Keys, Queue(k))
  }

  lemma FinishKeepsOpen(k: Keeper)
    requires Running(k) && Queue(k) == [] && k.pending.iteration < MAX_ITERATIONS
    ensures var next := Finish(k);
            && next.commits == k.commits && next.state == k.state && !next.busy && !next.halted
            && next.pending.chunksLeft == k.pending.chunksLeft && next.pending.iteration <= k.pending.iteration + 1
            && Queue(next) == []
  {
  }

  /** While the queue has room and the block is not too old, a turn seals nothing and uses no more than was asked. */
  lemma OpenTurn(k: Keeper, k0: Keeper)
    requires KeeperInv(k, k0) && Running(k) && Spare(k) >= 0
    requires Queue(k) == [] ==> k.pending.iteration < MAX_ITERATIONS
    ensures var next := KeeperStep(k);
            && next.commits == k.commits && next.sizes == k.sizes
            && k.state.index.Keys <= next.state.index.Keys
            && (!next.halted ==> Spare(next) >= Spare(k))
            && next.pending.iteration <= k.pending.iteration + (if next.busy then 0 else 1)
  {
    hide KeeperInv, KeeperStep, Finish, Seal, Execute;
    var next := KeeperStep(k);
    KnownGrows(k, k0);
    if Queue(k) == [] {
      StepIsFinish(k);
      FinishKeepsOpen(k);
      StepSizes(k);
    } else {
      TurnSealsExactly(k, k0);
      StepShape(k);
      if next.halted {
        HaltKeepsPending(k);
      } else {
        KnowingMoreCostsLess(k.state.index.Keys, next.state.index.Keys, Queue(next));
      }
    }
  }

  lemma StepSizes(k: Keeper)
    ensures KeeperStep(k).sizes == k.sizes
  {
    hide FirstFit, ChunksUsed, ExecutePriority, ExecuteTx;
  }

  lemma HaltKeepsPending(k: Keeper)
    requires Running(k) && Queue(k) != [] && KeeperStep(k).halted && HeadFits(k)
    ensures KeeperStep(k).pending == k.pending && KeeperStep(k).busy
  {
    hide FirstFit, ChunksUsed, ExecutePriority, ExecuteTx;
    assert k.priority != [] || k.txs != [];
    QueueShape(k);
  }

  lemma RoomFits(k: Keeper, k0: Keeper)
    requires KeeperInv(k, k0) && Spare(k) >= 0
    ensures AllFit(k.state, Queue(k), Max(k.sizes))
  {
    PendingBelowMax(k, k0);
    assert Inv(k.state);
    hide KeeperInv, Inv;
    DemandFits(k.state, Queue(k), Max(k.sizes));
  }

  lemma {:induction false} DrainStaysOpen(k: Keeper, k0: Keeper)
    requires KeeperInv(k, k0) && Running(k) && Spare(k) >= 0 && k.pending.iteration < MAX_ITERATIONS
    ensures AllFit(k.state, Queue(k), Max(k.sizes))
    ensures var end := Drain(k);
            && end.commits == k.commits && k.state.index.Keys <= end.state.index.Keys
            && (!end.halted ==> Spare(end) >= Spare(k) && end.pending.iteration <= k.pending.iteration + 1)
    decreases if AllFit(k.state, Queue(k), Max(k.sizes)) then Rank(k) else 0
  {
    hide KeeperInv, KeeperStep, AllFit, Spare, Execute;
    RoomFits(k, k0);
    StepDecreases(k);
    OpenTurn(k, k0);
    KeeperStepKeepsInv(k, k0);
    var next := KeeperStep(k);
    if Running(next) {
      assert Spare(next) >= 0 && next.pending.iteration <= k.pending.iteration;
      DrainStaysOpen(next, k0);
    }
  }

  // ---------- Requests ----------

  /** Everything a list of requests hands to the keeper. */
  function Asked(requests: seq<Request>): seq<Item> {
    if requests == [] then [] else
    var last := requests[|requests| - 1];
    Asked(requests[..|requests| - 1]) + if last.MiniBlock? then PriorityItems(last.priority) + TxItems(last.txs) else []
  }

  predicate AllMiniBlocks(requests: seq<Request>) {
    forall i | 0 <= i < |requests| :: requests[i].MiniBlock?
  }

  lemma IdleSpare(k: Keeper, k0: Keeper)
    requires KeeperInv(k, k0) && !k.busy
    ensures Spare(k) == k.pending.chunksLeft && Queue(k) == []
  {
    assert Queue(k) == [];
  }

  /** One mini-block that fits. */
  lemma HandleStaysOpen(k: Keeper, k0: Keeper, request: Request)
    requires Idle(k, k0) && request.MiniBlock? && k.pending.iteration < MAX_ITERATIONS
    requires Demand(k.state.index.Keys, Asked([request])) <= k.pending.chunksLeft
    ensures Handle(k, request).Some?
    ensures var end := Handle(k, request).value;
            && end.commits == k.commits && k.state.index.Keys <= end.state.index.Keys
            && (!end.halted ==>
                  && Idle(end, k0) && end.pending.iteration <= k.pending.iteration + 1
                  && end.pending.chunksLeft >=
                     k.pending.chunksLeft - Demand(k.state.index.Keys, Asked([request])))
  {
    hide KeeperInv, KeeperStep, AllFit, Demand, Execute, Aged, ChunksUsed;
    var taken := Accept(k, request.priority, request.txs);
    OneAsked(request);
    AcceptKeepsInv(k, k0, request.priority, request.txs);
    DrainStaysOpen(taken, k0);
    assert Handle(k, request) == Some(Drain(taken));
    if !Drain(taken).halted {
      HandleAges(k, k0, request);
      IdleSpare(Drain(taken), k0);
    }
  }

  lemma OneAsked(request: Request)
    requires request.MiniBlock?
    ensures Asked([request]) == PriorityItems(request.priority) + TxItems(request.txs)
  {
    assert [request][..0] == [];
    assert Asked([request]) == [] + (PriorityItems(request.priority) + TxItems(request.txs));
  }

  lemma AskedMore(requests: seq<Request>)
    requires requests != []
    ensures var n := |requests| - 1;
            Asked(requests) == Asked(requests[..n]) + Asked([requests[n]])
  {
    assert [requests[|requests| - 1]][..0] == [];
  }

  lemma {:induction false} StaysOpenWith(k: Keeper, k0: Keeper, requests: seq<Request>, more: nat)
    requires Idle(k, k0) && AllMiniBlocks(requests) && k.pending.iteration + |requests| <= MAX_ITERATIONS
    requires Demand(k.state.index.Keys, Asked(requests)) + more <= k.pending.chunksLeft
    ensures HandleAll(k, requests).Some?
    ensures var end := HandleAll(k, requests).value;
            && end.commits == k.commits && k.state.index.Keys <= end.state.index.Keys
            && (!end.halted ==>
                  && Idle(end, k0) && end.pending.chunksLeft >= more
                  && end.pending.iteration <= k.pending.iteration + |requests|)
  {
    hide Idle, Handle, Demand, Asked;
    if requests == [] {
      assert HandleAll(k, requests) == Some(k);
    } else {
      var n := |requests| - 1;
      var known := k.state.index.Keys;
      AskedMore(requests);
      DemandConcat(known, Asked(requests[..n]), Asked([requests[n]]));
      StaysOpenWith(k, k0, requests[..n], more + Demand(known, Asked([requests[n]])));
      var before := HandleAll(k, requests[..n]).value;
      if before.halted {
        HaltedHandles(before, requests[n]);
      } else {
        KnowingMoreCostsLess(known, before.state.index.Keys, Asked([requests[n]]));
        HandleStaysOpen(before, k0, requests[n]);
      }
    }
  }

  lemma HaltedHandles(k: Keeper, request: Request)
    requires k.halted
    ensures Handle(k, request) == Some(k)
  {
  }

  /** Mini-blocks that together have room in the pending block, and do not make it older than 50, seal nothing: so a
      block is sealed only on request, for lack of room, or at age 51. */
  lemma StaysOpen(k: Keeper, k0: Keeper, requests: seq<Request>)
    requires Idle(k, k0) && AllMiniBlocks(requests) && k.pending.iteration + |requests| <= MAX_ITERATIONS
    requires Demand(k.state.index.Keys, Asked(requests)) <= k.pending.chunksLeft
    ensures HandleAll(k, requests).Some? && HandleAll(k, requests).value.commits == k.commits
  {
    StaysOpenWith(k, k0, requests, 0);
  }
}
