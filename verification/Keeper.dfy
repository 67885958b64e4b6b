/** The state keeper: executes mini-blocks against the ledger and packs what they
    did into blocks under a chunk budget, sealing a block whenever the next
    operation does not fit. One `KeeperStep` is one turn of its loops. */
module Keeper {
  import opened Types
  import opened Ledger
  import opened LedgerRuns
  import opened Blocks
  import R = Replay

  const MAX_ITERATIONS: nat := 50

  /** The block being filled. `items` is history: the requests that went into it, refused ones included. */
  datatype Pending = Pending(
    success: seq<ExecutedOp>, failed: seq<ExecutedOp>, updates: Updates, chunksLeft: nat, opIndex: nat,
    priorityBefore: nat, iteration: nat, items: seq<Item>)

  function NewPending(priorityBefore: nat, chunksLeft: nat): Pending {
    Pending([], [], [], chunksLeft, 0, priorityBefore, 0, [])
  }

  /** A sealed block with its account updates, as sent for commitment. */
  datatype Commit = Commit(block: Block, updates: Updates, items: seq<Item>)

  /** A notification that operations were executed for a block. */
  datatype Note = Note(ops: seq<ExecutedOp>, blockNumber: nat)

  datatype Request = MiniBlock(priority: seq<PriorityOp>, txs: seq<Tx>) | SealBlock

  /** `priority`, `txs` and `executed` belong to the mini-block being executed, if `busy`.
      `commits`, `notes` and `accepted` are what was sent and received so far. */
  datatype Keeper = Keeper(
    state: State, blockNumber: nat, feeAccount: AccountId, unprocessed: nat, sizes: seq<nat>, pending: Pending,
    priority: seq<PriorityOp>, txs: seq<Tx>, executed: seq<ExecutedOp>, busy: bool, halted: bool,
    commits: seq<Commit>, notes: seq<Note>, accepted: seq<Item>)

  function Max(sizes: seq<nat>): nat {
    if sizes == [] then 0 else sizes[|sizes| - 1]
  }

  function PriorityItems(priority: seq<PriorityOp>): seq<Item> {
    seq(|priority|, i requires 0 <= i < |priority| => Priority(priority[i]))
  }

  function TxItems(txs: seq<Tx>): seq<Item> {
    seq(|txs|, i requires 0 <= i < |txs| => Transaction(txs[i]))
  }

  // ---------- The machine ----------

  function Accept(k: Keeper, priority: seq<PriorityOp>, txs: seq<Tx>): Keeper {
    k.(priority := priority, txs := txs, executed := [], busy := true,
       accepted := k.accepted + PriorityItems(priority) + TxItems(txs))
  }

  function Notify(k: Keeper): Keeper {
    k.(notes := k.notes + [Note(k.executed, k.blockNumber)], executed := [])
  }

  function Seal(k: Keeper): Keeper {
    var transactions := k.pending.success + k.pending.failed;
    var size := FirstFit(ChunksUsed(transactions), k.sizes);
    if size.None? then k.(halted := true) else
    var block := Block(k.blockNumber, k.state, k.feeAccount, transactions,
                       (k.pending.priorityBefore, k.unprocessed), size.value);
    k.(pending := NewPending(k.unprocessed, Max(k.sizes)),
       blockNumber := k.blockNumber + 1,
       commits := k.commits + [Commit(block, k.pending.updates, k.pending.items)])
  }

  function Charge(p: Pending, chunks: nat, updates: Updates, op: ExecutedOp, item: Item): Pending
    requires chunks <= p.chunksLeft
  {
    p.(chunksLeft := p.chunksLeft - chunks, updates := p.updates + updates, opIndex := p.opIndex + 1,
       success := p.success + [op], items := p.items + [item])
  }

  function PriorityStep(k: Keeper): Keeper
    requires k.priority != []
  {
    var request := k.priority[0];
    var chunks := PriorityChunks(request.data);
    if k.pending.chunksLeft < chunks then Seal(Notify(k)) else
    match ExecutePriority(k.state, request.data)
    case Done(e) =>
      var op := ExecutedPriority(request, e.op, k.pending.opIndex);
      k.(state := e.state, pending := Charge(k.pending, chunks, e.updates, op, Priority(request)),
         unprocessed := k.unprocessed + 1, executed := k.executed + [op], priority := k.priority[1..])
    case _ => k.(halted := true)
  }

  function TxStep(k: Keeper): Keeper
    requires k.txs != []
  {
    var tx := k.txs[0];
    var chunks := TxChunks(k.state.index.Keys, tx);
    if k.pending.chunksLeft < chunks then Seal(Notify(k)) else
    match ExecuteTx(k.state, tx)
    case Done(e) =>
      if k.feeAccount !in e.state.accounts then k.(halted := true) else
      var op := ExecutedTx(tx, Success(e.op, k.pending.opIndex));
      k.(state := e.state, pending := Charge(k.pending, chunks, e.updates, op, Transaction(tx)),
         executed := k.executed + [op], txs := k.txs[1..])
    case Rejected(reason) =>
      var op := ExecutedTx(tx, Failure(reason));
      k.(pending := k.pending.(failed := k.pending.failed + [op], items := k.pending.items + [Transaction(tx)]),
         executed := k.executed + [op], txs := k.txs[1..])
    case Panicked => k.(halted := true)
  }

  /** After the queues: age a block that has operations, and seal it when it is too old. */
  function Finish(k: Keeper): Keeper {
    var aged := if k.pending.success == [] then k
                else k.(pending := k.pending.(iteration := k.pending.iteration + 1));
    var tooOld := k.pending.success != [] && aged.pending.iteration > MAX_ITERATIONS;
    var sealed := if tooOld then Seal(Notify(aged)) else aged;
    if sealed.halted then sealed else Notify(sealed).(busy := false)
  }

  predicate Running(k: Keeper) {
    k.busy && !k.halted
  }

  function KeeperStep(k: Keeper): Keeper {
    if !Running(k) then k
    else if k.priority != [] then PriorityStep(k)
    else if k.txs != [] then TxStep(k)
    else Finish(k)
  }

  // ---------- What the pending block and each sealed block hold ----------

  function Land(e: Effect, blockIndex: nat): ExecutedOp {
    match e.item
    case Priority(request) => ExecutedPriority(request, e.op, blockIndex)
    case Transaction(tx) => ExecutedTx(tx, Success(e.op, blockIndex))
  }

  /** The executed operations of a run, each at its own position. */
  function Landing(done: seq<Effect>): seq<ExecutedOp> {
    seq(|done|, i requires 0 <= i < |done| => Land(done[i], i))
  }

  function Lost(refused: seq<Refusal>): seq<ExecutedOp> {
    seq(|refused|, i requires 0 <= i < |refused| => ExecutedTx(refused[i].tx, Failure(refused[i].reason)))
  }

  function CountPriority(done: seq<Effect>): nat {
    if done == [] then 0 else CountPriority(done[..|done| - 1]) + if done[|done| - 1].item.Priority? then 1 else 0
  }

  /** Everything about the pending block follows from the ledger it started from and the requests it took. */
  ghost predicate PendingOk(k: Keeper, base: State) {
    var r := RunAll(base, k.pending.items);
    && !r.halted
    && k.state == r.state
    && k.pending.success == Landing(r.done)
    && k.pending.failed == Lost(r.refused)
    && k.pending.updates == R.Log(r.done)
    && k.pending.opIndex == |r.done|
    && k.pending.chunksLeft + ChunksUsed(k.pending.success) == Max(k.sizes)
    && k.unprocessed == k.pending.priorityBefore + CountPriority(r.done)
  }

  /** So does everything about a sealed block. */
  ghost predicate CommitOk(c: Commit, base: State, unprocessed: nat, number: nat, feeAccount: AccountId,
                           sizes: seq<nat>) {
    var r := RunAll(base, c.items);
    && !r.halted
    && c.block.root == r.state
    && c.block.transactions == Landing(r.done) + Lost(r.refused)
    && c.updates == R.Log(r.done)
    && c.block.number == number
    && c.block.feeAccount == feeAccount
    && c.block.priorityOps == (unprocessed, unprocessed + CountPriority(r.done))
    && FirstFit(ChunksUsed(c.block.transactions), sizes) == Some(c.block.chunksSize)
  }

  /** The ledger and the counter that block `i` of a chain starts from. */
  function BaseAt(k0: Keeper, commits: seq<Commit>, i: nat): State
    requires i <= |commits|
  {
    if i == 0 then k0.state else commits[i - 1].block.root
  }

  function UnprocessedAt(k0: Keeper, commits: seq<Commit>, i: nat): nat
    requires i <= |commits|
  {
    if i == 0 then k0.unprocessed else commits[i - 1].block.priorityOps.1
  }

  /** A keeper as it is constructed: idle, with an empty pending block of the largest size. */
  ghost predicate Initial(k: Keeper) {
    && k.sizes != [] && Sorted(k.sizes)
    && Inv(k.state) && k.feeAccount in k.state.accounts
    && k.pending == NewPending(k.unprocessed, Max(k.sizes))
    && k.priority == [] && k.txs == [] && k.executed == [] && !k.busy && !k.halted
    && k.commits == [] && k.notes == [] && k.accepted == []
  }

  function Taken(commits: seq<Commit>): seq<Item> {
    if commits == [] then [] else Taken(commits[..|commits| - 1]) + commits[|commits| - 1].items
  }

  ghost predicate ChainOk(commits: seq<Commit>, k0: Keeper) {
    forall i | 0 <= i < |commits| ::
      CommitOk(commits[i], BaseAt(k0, commits, i), UnprocessedAt(k0, commits, i), k0.blockNumber + i,
               k0.feeAccount, k0.sizes)
  }

  ghost predicate KeeperInv(k: Keeper, k0: Keeper) {
    && Initial(k0)
    && k.sizes == k0.sizes && k.feeAccount == k0.feeAccount
    && Inv(k.state) && k.feeAccount in k.state.accounts
    && ChainOk(k.commits, k0)
    && PendingOk(k, BaseAt(k0, k.commits, |k.commits|))
    && k.pending.priorityBefore == UnprocessedAt(k0, k.commits, |k.commits|)
    && k.blockNumber == k0.blockNumber + |k.commits|
    && k.accepted == Taken(k.commits) + k.pending.items + PriorityItems(k.priority) + TxItems(k.txs)
    && (!k.busy ==> k.priority == [] && k.txs == [] && k.executed == [])
  }

  lemma InitialInv(k: Keeper)
    requires Initial(k)
    ensures KeeperInv(k, k)
  {
  }

  lemma RunOneMore(base: State, items: seq<Item>, item: Item)
    ensures RunAll(base, items + [item]) == Step(RunAll(base, items), item)
  {
    assert (items + [item])[..|items|] == items;
  }

  /** A successful transaction turns into an operation of exactly the size it was charged. */
  lemma ChargedExactly(s: State, item: Item)
    requires Inv(s) && Execute(s, item).Done?
    ensures Execute(s, item).value.op.Chunks() ==
            match item
            case Priority(p) => PriorityChunks(p.data)
            case Transaction(tx) => TxChunks(s.index.Keys, tx)
  {
  }

  lemma LandOneMore(done: seq<Effect>, e: Effect)
    ensures Landing(done + [e]) == Landing(done) + [Land(e, |done|)]
    ensures R.Log(done + [e]) == R.Log(done) + e.updates
    ensures CountPriority(done + [e]) == CountPriority(done) + if e.item.Priority? then 1 else 0
  {
    LandingOneMore(done, e);
    hide Land, Landing;
    assert (done + [e])[..|done|] == done;
  }

  lemma LandingOneMore(done: seq<Effect>, e: Effect)
    ensures Landing(done + [e]) == Landing(done) + [Land(e, |done|)]
  {
    hide Land;
    var more := done + [e];
    assert |Landing(more)| == |done| + 1;
    forall i | 0 <= i < |more| ensures Landing(more)[i] == (Landing(done) + [Land(e, |done|)])[i] {
      assert more[i] == if i < |done| then done[i] else e;
    }
  }

  lemma LandedChunks(done: seq<Effect>, e: Effect)
    ensures ChunksUsed(Landing(done) + [Land(e, |done|)]) == ChunksUsed(Landing(done)) + e.op.Chunks()
  {
    hide Landing;
    var all := Landing(done) + [Land(e, |done|)];
    assert all[..|all| - 1] == Landing(done);
  }

  lemma LoseOneMore(refused: seq<Refusal>, x: Refusal)
    ensures Lost(refused + [x]) == Lost(refused) + [ExecutedTx(x.tx, Failure(x.reason))]
  {
  }

  lemma {:induction false} LostIsFree(refused: seq<Refusal>)
    ensures ChunksUsed(Lost(refused)) == 0
  {
    if refused != [] {
      assert Lost(refused)[..|refused| - 1] == Lost(refused[..|refused| - 1]);
      LostIsFree(refused[..|refused| - 1]);
    }
  }

  lemma ChainOneMore(commits: seq<Commit>, k0: Keeper, c: Commit)
    requires ChainOk(commits, k0)
    requires CommitOk(c, BaseAt(k0, commits, |commits|), UnprocessedAt(k0, commits, |commits|),
                      k0.blockNumber + |commits|, k0.feeAccount, k0.sizes)
    ensures ChainOk(commits + [c], k0)
    ensures BaseAt(k0, commits + [c], |commits| + 1) == c.block.root
    ensures UnprocessedAt(k0, commits + [c], |commits| + 1) == c.block.priorityOps.1
  {
    hide CommitOk;
    var more := commits + [c];
    forall i | 0 <= i < |more|
      ensures CommitOk(more[i], BaseAt(k0, more, i), UnprocessedAt(k0, more, i), k0.blockNumber + i,
                       k0.feeAccount, k0.sizes)
    {
      if i < |commits| {
        assert more[i] == commits[i] && BaseAt(k0, more, i) == BaseAt(k0, commits, i);
      }
    }
  }

  /** The pending block never outgrows the largest size, so sealing finds a size for it. */
  lemma SealFits(k: Keeper, base: State)
    requires k.sizes != [] && Sorted(k.sizes) && PendingOk(k, base)
    ensures FirstFit(ChunksUsed(k.pending.success + k.pending.failed), k.sizes).Some?
    ensures !Seal(k).halted || k.halted
  {
    ChunksUsedConcat(k.pending.success, k.pending.failed);
    LostIsFree(RunAll(base, k.pending.items).refused);
    FirstFitIsSmallest(ChunksUsed(k.pending.success + k.pending.failed), k.sizes);
  }

  lemma SealKeepsInv(k: Keeper, k0: Keeper)
    requires KeeperInv(k, k0)
    ensures KeeperInv(Seal(k), k0)
    ensures Seal(k).halted == k.halted
    ensures |Seal(k).commits| == |k.commits| + 1
  {
    hide Inv, RunAll, ChainOk, Landing, Lost, R.Log, CountPriority, ChunksUsed, Sorted;
    var base := BaseAt(k0, k.commits, |k.commits|);
    SealFits(k, base);
    var after := Seal(k);
    var c := after.commits[|k.commits|];
    assert after.commits == k.commits + [c];
    ChainOneMore(k.commits, k0, c);
    FreshPending(after, k.state);
    assert after.commits[..|k.commits|] == k.commits;
    assert Taken(after.commits) == Taken(k.commits) + k.pending.items;
    assert k.accepted == Taken(after.commits) + [] + PriorityItems(k.priority) + TxItems(k.txs);
  }

  lemma FreshPending(k: Keeper, base: State)
    requires k.pending == NewPending(k.unprocessed, Max(k.sizes)) && k.state == base
    ensures PendingOk(k, base)
  {
  }

  // ---------- Every step keeps the invariant ----------

  lemma ChargeKeepsPending(k: Keeper, base: State, item: Item, chunks: nat)
    requires PendingOk(k, base) && Inv(k.state) && Execute(k.state, item).Done?
    requires chunks == Execute(k.state, item).value.op.Chunks() <= k.pending.chunksLeft
    ensures var e := Execute(k.state, item).value;
            var op := Land(Effect(item, e.op, e.updates), k.pending.opIndex);
            PendingOk(k.(state := e.state, pending := Charge(k.pending, chunks, e.updates, op, item),
                         unprocessed := k.unprocessed + if item.Priority? then 1 else 0), base)
  {
    hide Inv, Execute, Land, RunAll, ChunksUsed, CountPriority, R.Log, Landing;
    var e := Execute(k.state, item).value;
    var r := RunAll(base, k.pending.items);
    var effect := Effect(item, e.op, e.updates);
    RunOneMore(base, k.pending.items, item);
    LandOneMore(r.done, effect);
    LandedChunks(r.done, effect);
  }

  lemma RefuseKeepsPending(k: Keeper, base: State, tx: Tx)
    requires PendingOk(k, base) && ExecuteTx(k.state, tx).Rejected?
    ensures var op := ExecutedTx(tx, Failure(ExecuteTx(k.state, tx).reason));
            PendingOk(k.(pending := k.pending.(failed := k.pending.failed + [op],
                                               items := k.pending.items + [Transaction(tx)])), base)
  {
    hide ExecuteTx, RunAll, ChunksUsed, Lost;
    RunOneMore(base, k.pending.items, Transaction(tx));
    LoseOneMore(RunAll(base, k.pending.items).refused, Refusal(tx, ExecuteTx(k.state, tx).reason));
  }

  lemma NotifyKeepsInv(k: Keeper, k0: Keeper)
    requires KeeperInv(k, k0)
    ensures KeeperInv(Notify(k), k0)
  {
    hide Inv, Initial, RunAll, ChainOk;
  }

  lemma PriorityStepKeepsInv(k: Keeper, k0: Keeper)
    requires KeeperInv(k, k0) && Running(k) && k.priority != []
    ensures KeeperInv(PriorityStep(k), k0)
  {
    hide Inv, Initial, ChainOk, RunAll, ExecutePriority, Taken, Notify, Seal, Extends, ChunksUsed;
    var base := BaseAt(k0, k.commits, |k.commits|);
    var request := k.priority[0];
    if k.pending.chunksLeft < PriorityChunks(request.data) {
      NotifyKeepsInv(k, k0);
      SealKeepsInv(Notify(k), k0);
    } else if ExecutePriority(k.state, request.data).Done? {
      ExecuteKeepsInv(k.state, Priority(request));
      ExtendsKeeps(k.state, ExecutePriority(k.state, request.data).value.state, k.feeAccount);
      ChargedExactly(k.state, Priority(request));
      ChargeKeepsPending(k, base, Priority(request), PriorityChunks(request.data));
      assert PriorityItems(k.priority) == [Priority(request)] + PriorityItems(k.priority[1..]);
      assert k.accepted == PriorityStep(k).accepted;
      assert PendingOk(PriorityStep(k), base);
    }
  }

  lemma ExtendsKeeps(s: State, t: State, id: AccountId)
    requires Extends(s, t) && id in s.accounts
    ensures id in t.accounts
  {
  }

  lemma TxStepKeepsInv(k: Keeper, k0: Keeper)
    requires KeeperInv(k, k0) && Running(k) && k.priority == [] && k.txs != []
    ensures KeeperInv(TxStep(k), k0)
    ensures ExecuteTx(k.state, k.txs[0]).Done? ==> k.feeAccount in ExecuteTx(k.state, k.txs[0]).value.state.accounts
  {
    hide Inv, Initial, ChainOk, RunAll, ExecuteTx, Taken, Notify, Seal, Extends, ChunksUsed, TxChunks;
    var base := BaseAt(k0, k.commits, |k.commits|);
    var tx := k.txs[0];
    assert TxItems(k.txs) == [Transaction(tx)] + TxItems(k.txs[1..]);
    if ExecuteTx(k.state, tx).Done? {
      ExecuteKeepsInv(k.state, Transaction(tx));
      ExtendsKeeps(k.state, ExecuteTx(k.state, tx).value.state, k.feeAccount);
      ChargedExactly(k.state, Transaction(tx));
    }
    if k.pending.chunksLeft < TxChunks(k.state.index.Keys, tx) {
      NotifyKeepsInv(k, k0);
      SealKeepsInv(Notify(k), k0);
    } else if ExecuteTx(k.state, tx).Done? {
      ChargeKeepsPending(k, base, Transaction(tx), TxChunks(k.state.index.Keys, tx));
      assert PendingOk(TxStep(k), base);
    } else if ExecuteTx(k.state, tx).Rejected? {
      RefuseKeepsPending(k, base, tx);
      assert PendingOk(TxStep(k), base);
    }
  }

  lemma FinishKeepsInv(k: Keeper, k0: Keeper)
    requires KeeperInv(k, k0) && Running(k) && k.priority == [] && k.txs == []
    ensures KeeperInv(Finish(k), k0)
  {
    hide Inv, Initial, ChainOk, RunAll, Seal, ChunksUsed;
    var aged := k.(pending := k.pending.(iteration := k.pending.iteration + 1));
    if k.pending.success == [] {
      NotifyKeepsInv(k, k0);
    } else {
      assert KeeperInv(aged, k0);
      if aged.pending.iteration > MAX_ITERATIONS {
        NotifyKeepsInv(aged, k0);
        SealKeepsInv(Notify(aged), k0);
        NotifyKeepsInv(Seal(Notify(aged)), k0);
        SealLeavesQueues(Notify(aged));
      }
    }
  }

  lemma SealLeavesQueues(k: Keeper)
    ensures Seal(k).priority == k.priority && Seal(k).txs == k.txs && Seal(k).executed == k.executed
    ensures Seal(k).state == k.state && Seal(k).busy == k.busy && Seal(k).notes == k.notes
  {
  }

  lemma KeeperStepKeepsInv(k: Keeper, k0: Keeper)
    requires KeeperInv(k, k0)
    ensures KeeperInv(KeeperStep(k), k0)
  {
    hide KeeperInv, PriorityStep, TxStep, Finish;
    if Running(k) {
      if k.priority != [] {
        PriorityStepKeepsInv(k, k0);
      } else if k.txs != [] {
        TxStepKeepsInv(k, k0);
      } else {
        FinishKeepsInv(k, k0);
      }
    }
  }

  lemma AcceptKeepsInv(k: Keeper, k0: Keeper, priority: seq<PriorityOp>, txs: seq<Tx>)
    requires KeeperInv(k, k0) && !k.busy
    ensures KeeperInv(Accept(k, priority, txs), k0)
  {
    hide Inv, Initial, ChainOk, RunAll, ChunksUsed;
  }
}
