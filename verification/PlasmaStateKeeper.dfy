/** The state keeper as the server runs it: fields updated in place and loops over
    queues that push a request back when it does not fit. Proved against `Keeper`. */
module PlasmaStateKeepers {
  import opened Types
  import opened Ledger
  import opened LedgerRuns
  import opened PlasmaStates
  import opened Blocks
  import opened Keeper
  import opened KeeperProgress

  datatype Attempt = Ran(op: ExecutedOp) | NoSpace | Aborted

  /** The largest available block size; sizes are configured in ascending order, so it is the last one. */
  method LargestSize(sizes: seq<nat>) returns (max: nat)
    requires sizes != [] && Sorted(sizes)
    ensures max == Max(sizes)
    ensures forall size | size in sizes :: size <= max
  {
    max := sizes[0];
    for i := 1 to |sizes|
      invariant max == sizes[i - 1]
      invariant forall j | 0 <= j < i :: sizes[j] <= max
    {
      if sizes[i] > max {
        max := sizes[i];
      }
      assert sizes[i - 1] <= sizes[i];
    }
  }

  lemma LookupResolves(s: State, tx: Tx)
    requires Inv(s)
    ensures tx.TransferTx? ==> !ByAddress(s, tx.transfer.to).Panicked?
  {
  }

  class PlasmaStateKeeper {
    const state: PlasmaState
    const feeAccount: AccountId
    const sizes: seq<nat>
    var unprocessed: nat
    var pending: Pending
    var commits: seq<Commit>
    var notes: seq<Note>
    ghost var accepted: seq<Item>

    /** The keeper between mini-blocks. */
    ghost function Contents(): Keeper
      reads this, state
    {
      Keeper(state.Contents(), state.blockNumber, feeAccount, unprocessed, sizes, pending,
             [], [], [], false, false, commits, notes, accepted)
    }

    /** The keeper with the local variables of the mini-block it is executing. */
    ghost function View(priority: seq<PriorityOp>, txs: seq<Tx>, executed: seq<ExecutedOp>): Keeper
      reads this, state
    {
      Contents().(priority := priority, txs := txs, executed := executed, busy := true)
    }

    ghost predicate Valid()
      reads this, state
    {
      sizes != [] && Inv(state.Contents())
    }

    constructor (state: PlasmaState, feeAccount: AccountId, unprocessed: nat, sizes: seq<nat>)
      requires sizes != [] && Sorted(sizes)
      requires Inv(state.Contents()) && feeAccount in state.accounts
      ensures this.state == state && Valid() && Initial(Contents())
    {
      var max := LargestSize(sizes);
      this.state, this.feeAccount, this.sizes, this.unprocessed := state, feeAccount, sizes, unprocessed;
      pending := NewPending(unprocessed, max);
      commits, notes, accepted := [], [], [];
    }

    method NotifyExecutedOps(executed: seq<ExecutedOp>)
      modifies this`notes
      ensures notes == old(notes) + [Note(executed, state.blockNumber)]
    {
      notes := notes + [Note(executed, state.blockNumber)];
    }

    /** False when no available size holds the block, on which the source aborts. */
    method SealPendingBlock() returns (ok: bool)
      requires Valid()
      modifies this`pending, this`commits, state`blockNumber
      ensures Valid()
      ensures ok == !Seal(old(Contents())).halted
      ensures ok ==> Contents() == Seal(old(Contents()))
    {
      var sealed := pending;
      pending := NewPending(unprocessed, sizes[|sizes| - 1]);
      var transactions := sealed.success;
      transactions := transactions + sealed.failed;
      var size := SmallestBlockSize(ChunksUsed(transactions), sizes);
      if size.None? {
        return false;
      }
      var block := Block(state.blockNumber, State(state.accounts, state.index), feeAccount, transactions,
                         (sealed.priorityBefore, unprocessed), size.value);
      state.blockNumber := state.blockNumber + 1;
      commits := commits + [Commit(block, sealed.updates, sealed.items)];
      ok := true;
    }

    method ApplyPriorityOp(request: PriorityOp) returns (r: Attempt)
      requires Valid()
      modifies this`pending, this`unprocessed, state`accounts, state`index
      ensures r.NoSpace? <==> old(pending.chunksLeft) < PriorityChunks(request.data)
      ensures r.NoSpace? ==> Contents() == old(Contents())
      ensures r.Aborted? ==> PriorityStep(old(View([request], [], []))).halted
      ensures r.Ran? ==> View([], [], [r.op]) == PriorityStep(old(View([request], [], [])))
      ensures !r.Aborted? ==> Valid()
    {
      hide Inv, ExecutePriority, Extends, Seal, Notify;
      var chunks := PriorityChunks(request.data);
      if pending.chunksLeft < chunks {
        return NoSpace;
      }
      ghost var before := state.Contents();
      var result := state.ExecutePriorityOp(request.data);
      if !result.Done? {
        return Aborted;
      }
      ExecuteKeepsInv(before, Priority(request));
      var op := ExecutedPriority(request, result.value.op, pending.opIndex);
      pending := pending.(chunksLeft := pending.chunksLeft - chunks,
                          updates := pending.updates + result.value.updates,
                          opIndex := pending.opIndex + 1,
                          success := pending.success + [op],
                          items := pending.items + [Priority(request)]);
      unprocessed := unprocessed + 1;
      r := Ran(op);
    }

    method ApplyTx(tx: Tx) returns (r: Attempt)
      requires Valid()
      modifies this`pending, state`accounts, state`index
      ensures r.NoSpace? <==> old(pending.chunksLeft) < TxChunks(old(state.index).Keys, tx)
      ensures r.NoSpace? ==> Contents() == old(Contents())
      ensures r.Aborted? ==> TxStep(old(View([], [tx], []))).halted
      ensures r.Ran? ==> View([], [], [r.op]) == TxStep(old(View([], [tx], [])))
      ensures !r.Aborted? ==> Valid()
    {
      hide Inv, ExecuteTx, Extends, TxChunks, ByAddress, Seal, Notify;
      LookupResolves(state.Contents(), tx);
      var size := state.ChunksForTx(tx);
      var chunks := size.value;
      if pending.chunksLeft < chunks {
        return NoSpace;
      }
      ghost var before := state.Contents();
      var result := state.ExecuteTransaction(tx);
      if result.Panicked? {
        return Aborted;
      }
      if result.Rejected? {
        var op := ExecutedTx(tx, Failure(result.reason));
        pending := pending.(failed := pending.failed + [op], items := pending.items + [Transaction(tx)]);
        return Ran(op);
      }
      ExecuteKeepsInv(before, Transaction(tx));
      var fees := state.CollectFee(feeAccount);
      if fees.Panicked? {
        return Aborted;
      }
      var op := ExecutedTx(tx, Success(result.value.op, pending.opIndex));
      pending := pending.(chunksLeft := pending.chunksLeft - chunks,
                          updates := pending.updates + result.value.updates,
                          opIndex := pending.opIndex + 1,
                          success := pending.success + [op],
                          items := pending.items + [Transaction(tx)]);
      r := Ran(op);
    }

    /** One turn of the first loop of a mini-block: run the head, or seal and put it back. */
    method PriorityTurn(queue: seq<PriorityOp>, ghost txs: seq<Tx>, executed: seq<ExecutedOp>)
      returns (ok: bool, rest: seq<PriorityOp>, ran: seq<ExecutedOp>)
      requires Valid() && queue != []
      modifies this`pending, this`unprocessed, this`commits, this`notes, state
      ensures ok == !PriorityStep(old(View(queue, txs, executed))).halted
      ensures ok ==> Valid() && View(rest, txs, ran) == PriorityStep(old(View(queue, txs, executed)))
    {
      hide Inv, ExecutePriority, ChunksUsed, FirstFit;
      var request := queue[0];
      rest := queue[1..];
      var attempt := ApplyPriorityOp(request);
      match attempt
      case Ran(op) =>
        ok, ran := true, executed + [op];
      case NoSpace =>
        NotifyExecutedOps(executed);
        ran := [];
        ok := SealPendingBlock();
        rest := [request] + rest;
        assert rest == queue;
      case Aborted =>
        ok, ran := false, executed;
    }

    method TxTurn(queue: seq<Tx>, executed: seq<ExecutedOp>)
      returns (ok: bool, rest: seq<Tx>, ran: seq<ExecutedOp>)
      requires Valid() && queue != []
      modifies this`pending, this`commits, this`notes, state
      ensures ok == !TxStep(old(View([], queue, executed))).halted
      ensures ok ==> Valid() && View([], rest, ran) == TxStep(old(View([], queue, executed)))
    {
      hide Inv, ExecuteTx, TxChunks, ChunksUsed, FirstFit;
      var tx := queue[0];
      rest := queue[1..];
      var attempt := ApplyTx(tx);
      match attempt
      case Ran(op) =>
        ok, ran := true, executed + [op];
      case NoSpace =>
        NotifyExecutedOps(executed);
        ran := [];
        ok := SealPendingBlock();
        rest := [tx] + rest;
        assert rest == queue;
      case Aborted =>
        ok, ran := false, executed;
    }

    /** The end of a mini-block: age the pending block, and seal it when it is too old. */
    method FinishBatch(executed: seq<ExecutedOp>) returns (ok: bool)
      requires Valid()
      modifies this`pending, this`commits, this`notes, state`blockNumber
      ensures ok == !Finish(old(View([], [], executed))).halted
      ensures ok ==> Valid() && Contents() == Finish(old(View([], [], executed)))
    {
      hide Inv, ChunksUsed, FirstFit;
      var waiting := executed;
      if pending.success != [] {
        pending := pending.(iteration := pending.iteration + 1);
        if pending.iteration > MAX_ITERATIONS {
          NotifyExecutedOps(waiting);
          waiting := [];
          ok := SealPendingBlock();
          if !ok {
            return;
          }
        }
      }
      NotifyExecutedOps(waiting);
      ok := true;
    }

    /** Executes a mini-block. Terminates because every request fits an empty block; see `BatchEnds`. */
    method ExecuteTxBatch(priority: seq<PriorityOp>, txs: seq<Tx>) returns (ok: bool)
      requires Valid()
      requires AllFit(state.Contents(), PriorityItems(priority) + TxItems(txs), Max(sizes))
      modifies this, state
      ensures ok == !Drain(Accept(old(Contents()), priority, txs)).halted
      ensures ok ==> Valid() && Contents() == Drain(Accept(old(Contents()), priority, txs))
    {
      hide Inv, AllFit, PriorityStep, TxStep, Finish;
      accepted := accepted + PriorityItems(priority) + TxItems(txs);
      ghost var taken := Accept(old(Contents()), priority, txs);
      var executed := [];
      var queue := priority;
      assert View(queue, txs, executed) == taken;
      while queue != []
        invariant Valid() && AllFit(state.Contents(), Queue(View(queue, txs, executed)), Max(sizes))
        invariant Drain(View(queue, txs, executed)) == Drain(taken)
        decreases Rank(View(queue, txs, executed))
      {
        StepDecreases(View(queue, txs, executed));
        ok, queue, executed := PriorityTurn(queue, txs, executed);
        if !ok {
          return;
        }
      }
      var rest := txs;
      while rest != []
        invariant Valid() && AllFit(state.Contents(), Queue(View([], rest, executed)), Max(sizes))
        invariant Drain(View([], rest, executed)) == Drain(taken)
        decreases Rank(View([], rest, executed))
      {
        StepDecreases(View([], rest, executed));
        ok, rest, executed := TxTurn(rest, executed);
        if !ok {
          return;
        }
      }
      ok := FinishBatch(executed);
    }
  }
}
