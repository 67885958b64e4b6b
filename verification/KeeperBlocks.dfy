/** What the keeper's invariant says about the blocks it has sealed: their numbers,
    sizes, indices and priority intervals, and that no request is lost or repeated. */
module KeeperBlocks {
  import opened Types
  import opened Ledger
  import opened LedgerRuns
  import opened Blocks
  import opened Keeper
  import R = Replay

  function Only(ops: seq<ExecutedOp>, succeeded: bool): seq<ExecutedOp> {
    if ops == [] then [] else
    Only(ops[..|ops| - 1], succeeded) + if ops[|ops| - 1].Succeeded() == succeeded then [ops[|ops| - 1]] else []
  }

  function PriorityCount(ops: seq<ExecutedOp>): nat {
    if ops == [] then 0 else PriorityCount(ops[..|ops| - 1]) + if ops[|ops| - 1].ExecutedPriority? then 1 else 0
  }

  predicate IndexedBy(op: ExecutedOp, i: nat) {
    match op
    case ExecutedPriority(_, _, index) => index == i
    case ExecutedTx(_, Success(_, index)) => index == i
    case ExecutedTx(_, Failure(_)) => false
  }

  lemma {:induction false} OnlyConcat(a: seq<ExecutedOp>, b: seq<ExecutedOp>, succeeded: bool)
    ensures Only(a + b, succeeded) == Only(a, succeeded) + Only(b, succeeded)
    ensures PriorityCount(a + b) == PriorityCount(a) + PriorityCount(b)
  {
    if b == [] {
      assert a + b == a;
    } else {
      assert (a + b)[..|a + b| - 1] == a + b[..|b| - 1];
      OnlyConcat(a, b[..|b| - 1], succeeded);
    }
  }

  lemma {:induction false} OnlyAll(ops: seq<ExecutedOp>, succeeded: bool)
    requires forall i | 0 <= i < |ops| :: ops[i].Succeeded() == succeeded
    ensures Only(ops, succeeded) == ops && Only(ops, !succeeded) == []
  {
    if ops != [] {
      OnlyAll(ops[..|ops| - 1], succeeded);
    }
  }

  lemma {:induction false} LandingCounts(done: seq<Effect>)
    ensures PriorityCount(Landing(done)) == CountPriority(done)
  {
    if done != [] {
      assert Landing(done)[..|done| - 1] == Landing(done[..|done| - 1]);
      LandingCounts(done[..|done| - 1]);
    }
  }

  lemma {:induction false} LostCounts(refused: seq<Refusal>)
    ensures PriorityCount(Lost(refused)) == 0
  {
    if refused != [] {
      assert Lost(refused)[..|refused| - 1] == Lost(refused[..|refused| - 1]);
      LostCounts(refused[..|refused| - 1]);
    }
  }

  /** A block's transactions split back into what was executed and what was refused. */
  lemma SplitBlock(done: seq<Effect>, refused: seq<Refusal>)
    ensures Only(Landing(done) + Lost(refused), true) == Landing(done)
    ensures Only(Landing(done) + Lost(refused), false) == Lost(refused)
    ensures PriorityCount(Landing(done) + Lost(refused)) == CountPriority(done)
  {
    OnlyConcat(Landing(done), Lost(refused), true);
    OnlyConcat(Landing(done), Lost(refused), false);
    OnlyAll(Landing(done), true);
    OnlyAll(Lost(refused), false);
    LandingCounts(done);
    LostCounts(refused);
  }

  lemma CommitHolds(k: Keeper, k0: Keeper, i: nat)
    requires KeeperInv(k, k0) && i < |k.commits|
    ensures CommitOk(k.commits[i], BaseAt(k0, k.commits, i), UnprocessedAt(k0, k.commits, i), k0.blockNumber + i,
                     k0.feeAccount, k0.sizes)
  {
    hide CommitOk, PendingOk, Inv;
  }

  /** Sealed blocks are numbered consecutively; each takes the smallest size that holds it; its executed
      operations come first, each at its own index; and its priority interval starts where the
      previous one ended and is as long as its priority operations are many. */
  lemma SealedBlocks(k: Keeper, k0: Keeper, i: nat)
    requires KeeperInv(k, k0) && i < |k.commits|
    ensures var b := k.commits[i].block;
            && b.number == k0.blockNumber + i
            && b.transactions == Only(b.transactions, true) + Only(b.transactions, false)
            && (forall j | 0 <= j < |Only(b.transactions, true)| :: IndexedBy(b.transactions[j], j))
            && ChunksUsed(b.transactions) <= b.chunksSize && b.chunksSize in k0.sizes
            && (forall size | size in k0.sizes && ChunksUsed(b.transactions) <= size :: b.chunksSize <= size)
            && b.priorityOps.0 == (if i == 0 then k0.unprocessed else k.commits[i - 1].block.priorityOps.1)
            && b.priorityOps.1 - b.priorityOps.0 == PriorityCount(b.transactions)
  {
    hide KeeperInv, RunAll, Landing, Lost;
    var c := k.commits[i];
    CommitHolds(k, k0, i);
    var r := RunAll(BaseAt(k0, k.commits, i), c.items);
    SplitBlock(r.done, r.refused);
    LandingIsIndexed(r.done);
    SortedSizes(k, k0);
    FirstFitIsSmallest(ChunksUsed(c.block.transactions), k0.sizes);
  }

  lemma LandingIsIndexed(done: seq<Effect>)
    ensures |Landing(done)| == |done|
    ensures forall j | 0 <= j < |done| :: IndexedBy(Landing(done)[j], j)
  {
  }

  lemma SortedSizes(k: Keeper, k0: Keeper)
    requires KeeperInv(k, k0)
    ensures k0.sizes != [] && Sorted(k0.sizes)
  {
  }

  /** The block being filled obeys the same rules. */
  lemma PendingBlock(k: Keeper, k0: Keeper)
    requires KeeperInv(k, k0)
    ensures k.blockNumber == k0.blockNumber + |k.commits|
    ensures k.pending.chunksLeft + ChunksUsed(k.pending.success) == Max(k0.sizes)
    ensures k.pending.opIndex == |k.pending.success|
    ensures forall j | 0 <= j < |k.pending.success| :: IndexedBy(k.pending.success[j], j)
    ensures k.unprocessed == k.pending.priorityBefore + PriorityCount(k.pending.success)
    ensures k.pending.priorityBefore == (if k.commits == [] then k0.unprocessed
                                         else k.commits[|k.commits| - 1].block.priorityOps.1)
  {
    LandingCounts(RunAll(BaseAt(k0, k.commits, |k.commits|), k.pending.items).done);
  }

  // ---------- Nothing lost, nothing repeated ----------

  function RequestOf(op: ExecutedOp): Item {
    match op
    case ExecutedPriority(request, _, _) => Priority(request)
    case ExecutedTx(tx, _) => Transaction(tx)
  }

  function Requests(ops: seq<ExecutedOp>): seq<Item> {
    seq(|ops|, i requires 0 <= i < |ops| => RequestOf(ops[i]))
  }

  function OpsOf(ops: seq<ExecutedOp>): seq<FranklinOp> {
    if ops == [] then [] else OpsOf(ops[..|ops| - 1]) + ops[|ops| - 1].Ops()
  }

  /** All executed (or all refused) requests in the sealed blocks, in block order. */
  function Sealed(commits: seq<Commit>, succeeded: bool): seq<ExecutedOp> {
    if commits == [] then [] else
    Sealed(commits[..|commits| - 1], succeeded) + Only(commits[|commits| - 1].block.transactions, succeeded)
  }

  function SealedUpdates(commits: seq<Commit>): Updates {
    if commits == [] then [] else SealedUpdates(commits[..|commits| - 1]) + commits[|commits| - 1].updates
  }

  /** Two executed-operation lists record the same requests and operations, wherever they sit in a block. */
  predicate Records(ops: seq<ExecutedOp>, done: seq<Effect>) {
    |ops| == |done| &&
    forall i | 0 <= i < |done| :: RequestOf(ops[i]) == done[i].item && ops[i].Ops() == [done[i].op]
  }

  lemma {:induction false} RunConcat(s: State, a: seq<Item>, b: seq<Item>)
    requires !RunAll(s, a).halted
    ensures var first := RunAll(s, a);
            var second := RunAll(first.state, b);
            RunAll(s, a + b) ==
            Run(second.state, first.done + second.done, first.refused + second.refused, second.halted)
  {
    var first := RunAll(s, a);
    if b == [] {
      assert a + b == a && first.done + [] == first.done && first.refused + [] == first.refused;
    } else {
      hide Execute;
      var init, last := b[..|b| - 1], b[|b| - 1];
      assert (a + b)[..|a + b| - 1] == a + init;
      RunConcat(s, a, init);
      var before := RunAll(first.state, init);
      if !before.halted && Execute(before.state, last).Done? {
        var e := Execute(before.state, last).value;
        assert first.done + before.done + [Effect(last, e.op, e.updates)] ==
               first.done + (before.done + [Effect(last, e.op, e.updates)]);
      } else if !before.halted && Execute(before.state, last).Rejected? && last.Transaction? {
        var x := Refusal(last.tx, Execute(before.state, last).reason);
        assert first.refused + before.refused + [x] == first.refused + (before.refused + [x]);
      }
    }
  }

  lemma {:induction false} LogConcat(a: seq<Effect>, b: seq<Effect>)
    ensures R.Log(a + b) == R.Log(a) + R.Log(b)
  {
    if b == [] {
      assert a + b == a;
    } else {
      assert (a + b)[..|a + b| - 1] == a + b[..|b| - 1];
      LogConcat(a, b[..|b| - 1]);
    }
  }

  /** A run without blocks that took exactly the requests of the sealed blocks. */
  ghost predicate Mirrors(r: Run, state: State, success: seq<ExecutedOp>, failed: seq<ExecutedOp>, updates: Updates) {
    && !r.halted && r.state == state
    && Records(success, r.done)
    && failed == Lost(r.refused)
    && updates == R.Log(r.done)
  }

  lemma MirrorsMore(r: Run, state: State, success: seq<ExecutedOp>, failed: seq<ExecutedOp>, updates: Updates,
                    items: seq<Item>, s: State, more: seq<Item>)
    requires r == RunAll(s, items) && Mirrors(r, state, success, failed, updates)
    requires !RunAll(state, more).halted
    ensures var next := RunAll(state, more);
            Mirrors(RunAll(s, items + more), next.state, success + Landing(next.done), failed + Lost(next.refused),
                    updates + R.Log(next.done))
  {
    hide RunAll;
    hide Records, Landing, Lost, R.Log;
    var next := RunAll(state, more);
    RunConcat(s, items, more);
    LogConcat(r.done, next.done);
    RecordsMore(success, r.done, next.done);
    LostMore(r.refused, next.refused);
  }

  lemma RecordsMore(success: seq<ExecutedOp>, done: seq<Effect>, more: seq<Effect>)
    requires Records(success, done)
    ensures Records(success + Landing(more), done + more)
  {
  }

  lemma LostMore(refused: seq<Refusal>, more: seq<Refusal>)
    ensures Lost(refused + more) == Lost(refused) + Lost(more)
  {
  }

  lemma {:induction false} SealedMirrors(commits: seq<Commit>, k0: Keeper)
    requires ChainOk(commits, k0)
    ensures Mirrors(RunAll(k0.state, Taken(commits)), BaseAt(k0, commits, |commits|),
                    Sealed(commits, true), Sealed(commits, false), SealedUpdates(commits))
  {
    hide Mirrors, ChainOk, Taken, Sealed, SealedUpdates, CommitOk;
    if commits == [] {
      NothingSealed(k0);
    } else {
      var n := |commits| - 1;
      ChainLast(commits, k0);
      ChainPrefix(commits, k0);
      SealedMirrors(commits[..n], k0);
      assert BaseAt(k0, commits[..n], n) == BaseAt(k0, commits, n);
      UnfoldSealed(commits);
      CommitMirrors(commits[n], BaseAt(k0, commits, n), UnprocessedAt(k0, commits, n), k0, commits[..n]);
    }
  }

  lemma NothingSealed(k0: Keeper)
    ensures Mirrors(RunAll(k0.state, Taken([])), k0.state, Sealed([], true), Sealed([], false), SealedUpdates([]))
  {
  }

  lemma UnfoldSealed(commits: seq<Commit>)
    requires commits != []
    ensures var before, c := commits[..|commits| - 1], commits[|commits| - 1];
            && Taken(commits) == Taken(before) + c.items
            && Sealed(commits, true) == Sealed(before, true) + Only(c.block.transactions, true)
            && Sealed(commits, false) == Sealed(before, false) + Only(c.block.transactions, false)
            && SealedUpdates(commits) == SealedUpdates(before) + c.updates
  {
  }

  lemma CommitMirrors(c: Commit, base: State, unprocessed: nat, k0: Keeper, before: seq<Commit>)
    requires CommitOk(c, base, unprocessed, k0.blockNumber + |before|, k0.feeAccount, k0.sizes)
    requires Mirrors(RunAll(k0.state, Taken(before)), base, Sealed(before, true), Sealed(before, false),
                     SealedUpdates(before))
    ensures Mirrors(RunAll(k0.state, Taken(before) + c.items), c.block.root,
                    Sealed(before, true) + Only(c.block.transactions, true),
                    Sealed(before, false) + Only(c.block.transactions, false), SealedUpdates(before) + c.updates)
  {
    hide RunAll, Mirrors, Landing, Lost, Only, R.Log, Taken, Sealed, SealedUpdates;
    var r := RunAll(base, c.items);
    SplitBlock(r.done, r.refused);
    MirrorsMore(RunAll(k0.state, Taken(before)), base, Sealed(before, true), Sealed(before, false),
                SealedUpdates(before), Taken(before), k0.state, c.items);
  }

  lemma ChainLast(commits: seq<Commit>, k0: Keeper)
    requires ChainOk(commits, k0) && commits != []
    ensures var n := |commits| - 1;
            CommitOk(commits[n], BaseAt(k0, commits, n), UnprocessedAt(k0, commits, n), k0.blockNumber + n,
                     k0.feeAccount, k0.sizes)
  {
    hide CommitOk;
  }

  lemma ChainPrefix(commits: seq<Commit>, k0: Keeper)
    requires ChainOk(commits, k0) && commits != []
    ensures ChainOk(commits[..|commits| - 1], k0)
  {
    hide CommitOk;
    var before := commits[..|commits| - 1];
    forall i | 0 <= i < |before|
      ensures CommitOk(before[i], BaseAt(k0, before, i), UnprocessedAt(k0, before, i), k0.blockNumber + i,
                       k0.feeAccount, k0.sizes)
    {
      assert before[i] == commits[i] && BaseAt(k0, before, i) == BaseAt(k0, commits, i);
      assert UnprocessedAt(k0, before, i) == UnprocessedAt(k0, commits, i);
    }
  }

  /** Every request accepted so far is either still queued or was taken once, in order; and the sealed blocks
      with the pending one hold exactly what executing the taken requests without any blocks gives. */
  lemma NothingLost(k: Keeper, k0: Keeper)
    requires KeeperInv(k, k0)
    ensures var taken := Taken(k.commits) + k.pending.items;
            && k.accepted == taken + PriorityItems(k.priority) + TxItems(k.txs)
            && Mirrors(RunAll(k0.state, taken), k.state,
                       Sealed(k.commits, true) + k.pending.success, Sealed(k.commits, false) + k.pending.failed,
                       SealedUpdates(k.commits) + k.pending.updates)
  {
    hide RunAll, Mirrors, Inv;
    var base := BaseAt(k0, k.commits, |k.commits|);
    SealedMirrors(k.commits, k0);
    MirrorsMore(RunAll(k0.state, Taken(k.commits)), base, Sealed(k.commits, true), Sealed(k.commits, false),
                SealedUpdates(k.commits), Taken(k.commits), k0.state, k.pending.items);
  }
}
