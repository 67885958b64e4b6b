/** Restoring the blocks the state keeper sealed, from what they published, rebuilds them and the ledger. */
module RestoreBlocks {
  import opened Types
  import opened Ledger
  import opened LedgerRuns
  import opened Blocks
  import opened Keeper
  import opened KeeperBlocks
  import opened Restore
  import R = Replay

  lemma {:induction false} OpsOfLanding(done: seq<Effect>)
    ensures OpsOf(Landing(done)) == Ops(done)
  {
    if done != [] {
      assert Landing(done)[..|done| - 1] == Landing(done[..|done| - 1]);
      assert Ops(done)[..|done| - 1] == Ops(done[..|done| - 1]);
      OpsOfLanding(done[..|done| - 1]);
    }
  }

  lemma {:induction false} OpsOfLost(executed: seq<ExecutedOp>, refused: seq<Refusal>)
    ensures OpsOf(executed + Lost(refused)) == OpsOf(executed)
  {
    var all := executed + Lost(refused);
    if refused == [] {
      assert all == executed;
    } else {
      assert all[..|all| - 1] == executed + Lost(refused[..|refused| - 1]);
      OpsOfLost(executed, refused[..|refused| - 1]);
    }
  }

  /** A request executes as a priority operation exactly when it is one. */
  lemma {:induction false} PriorityKinds(s: State, items: seq<Item>)
    ensures PriorityOpsIn(Ops(RunAll(s, items).done)) == CountPriority(RunAll(s, items).done)
  {
    if items != [] {
      var before, last := RunAll(s, items[..|items| - 1]), items[|items| - 1];
      PriorityKinds(s, items[..|items| - 1]);
      if !before.halted && Execute(before.state, last).Done? {
        KindKept(before.state, last);
        hide Execute;
        var done := RunAll(s, items).done;
        assert done[..|before.done|] == before.done;
        assert Ops(done)[..|before.done|] == Ops(before.done);
      }
    }
  }

  lemma KindKept(s: State, item: Item)
    requires Execute(s, item).Done?
    ensures Execute(s, item).value.op.IsPriority() <==> item.Priority?
  {
  }

  /** The rebuilt operations take the same space. */
  lemma {:induction false} SameSpace(executed: seq<ExecutedOp>, done: seq<Effect>)
    requires SameOps(executed, Ops(done))
    ensures ChunksUsed(executed) == ChunksUsed(Landing(done))
  {
    if done != [] {
      var n := |done| - 1;
      assert Ops(done)[..n] == Ops(done[..n]);
      assert Landing(done)[..n] == Landing(done[..n]);
      assert SameOps(executed[..n], Ops(done[..n]));
      SameSpace(executed[..n], done[..n]);
      SameChunks(executed[n].Ops()[0], done[n].op);
    }
  }

  lemma SameChunks(a: FranklinOp, b: FranklinOp)
    requires Anonymous(a) == Anonymous(b)
    ensures a.Chunks() == b.Chunks()
  {
  }

  /** Where the restorer stands before block `i`. */
  function TreeAt(k0: Keeper, commits: seq<Commit>, i: nat): Tree
    requires i <= |commits|
  {
    Tree(BaseAt(k0, commits, i), k0.blockNumber + i, UnprocessedAt(k0, commits, i))
  }

  /** A restored block agrees with the sealed one in everything the public data determines. */
  ghost predicate Rebuilds(restored: Restored, c: Commit, next: Tree) {
    && restored.tree == next
    && restored.updates == c.updates
    && restored.block == c.block.(transactions := restored.block.transactions)
    && SameOps(restored.block.transactions, OpsOf(c.block.transactions))
  }

  lemma RestoreSealedBlock(k: Keeper, k0: Keeper, i: nat, wires: seq<FranklinOp>)
    requires KeeperInv(k, k0) && i < |k.commits|
    requires AllCarry(WithoutNoops(wires), OpsOf(k.commits[i].block.transactions))
    ensures var r := RestoreBlock(TreeAt(k0, k.commits, i), k.commits[i].block.number, wires, k0.feeAccount, k0.sizes);
            r.Done? && Rebuilds(r.value, k.commits[i], TreeAt(k0, k.commits, i + 1))
  {
    hide KeeperInv, AllCarry, RestoreBlock, Inv, OpsOf, SameOps, CommitOk;
    CommitHolds(k, k0, i);
    BaseHolds(k, k0, i);
    RestoreCommit(k.commits[i], BaseAt(k0, k.commits, i), UnprocessedAt(k0, k.commits, i), k0.blockNumber + i,
                  k0.feeAccount, k0.sizes, wires);
  }

  lemma RestoreCommit(c: Commit, base: State, n: nat, number: nat, feeAccount: AccountId, sizes: seq<nat>,
                      wires: seq<FranklinOp>)
    requires CommitOk(c, base, n, number, feeAccount, sizes) && Inv(base) && feeAccount in base.accounts
    requires AllCarry(WithoutNoops(wires), OpsOf(c.block.transactions))
    ensures var r := RestoreBlock(Tree(base, number, n), c.block.number, wires, feeAccount, sizes);
            r.Done? && Rebuilds(r.value, c, Tree(c.block.root, number + 1, c.block.priorityOps.1))
  {
    hide RunAll, AllCarry, RestoreOps, Inv, Ops, OpsOf, Landing, Lost, ChunksUsed, SameOps, FirstFit, R.Log;
    var r := RunAll(base, c.items);
    OpsOfLost(Landing(r.done), r.refused);
    OpsOfLanding(r.done);
    RestoreFollowsRun(base, c.items, n, wires);
    PriorityKinds(base, c.items);
    FeeAccountStays(base, c.items, feeAccount);
    SameSpace(RestoreOps(Progress(base, n, [], []), wires).value.executed, r.done);
    ChunksUsedConcat(Landing(r.done), Lost(r.refused));
    LostIsFree(r.refused);
  }

  lemma FeeAccountStays(s: State, items: seq<Item>, feeAccount: AccountId)
    requires Inv(s) && feeAccount in s.accounts
    ensures feeAccount in RunAll(s, items).state.accounts
  {
    RunKeepsInv(s, items);
  }

  lemma {:induction false} BaseHolds(k: Keeper, k0: Keeper, i: nat)
    requires KeeperInv(k, k0) && i <= |k.commits|
    ensures Inv(BaseAt(k0, k.commits, i)) && k0.feeAccount in BaseAt(k0, k.commits, i).accounts
  {
    hide RunAll, Inv, CommitOk, PendingOk, ChainOk;
    if i > 0 {
      var base := BaseAt(k0, k.commits, i - 1);
      CommitHolds(k, k0, i - 1);
      BaseHolds(k, k0, i - 1);
      CommitKeeps(k.commits[i - 1], base, UnprocessedAt(k0, k.commits, i - 1), k0.blockNumber + (i - 1),
                  k0.feeAccount, k0.sizes);
    }
  }

  lemma CommitKeeps(c: Commit, base: State, n: nat, number: nat, feeAccount: AccountId, sizes: seq<nat>)
    requires CommitOk(c, base, n, number, feeAccount, sizes) && Inv(base) && feeAccount in base.accounts
    ensures Inv(c.block.root) && feeAccount in c.block.root.accounts
  {
    RunKeepsInv(base, c.items);
  }

  /** Restore blocks one after another, each from its published operations. */
  function RestoreChain(t: Tree, published: seq<seq<FranklinOp>>, first: nat, feeAccount: AccountId, sizes: seq<nat>)
    : Outcome<Tree>
  {
    if published == [] then Done(t) else
    match RestoreChain(t, published[..|published| - 1], first, feeAccount, sizes)
    case Rejected(e) => Rejected(e)
    case Panicked => Panicked
    case Done(before) =>
      match RestoreBlock(before, first + |published| - 1, published[|published| - 1], feeAccount, sizes)
      case Rejected(e) => Rejected(e)
      case Panicked => Panicked
      case Done(r) => Done(r.tree)
  }

  ghost predicate AllCarried(k: Keeper, published: seq<seq<FranklinOp>>) {
    && |published| <= |k.commits|
    && forall i | 0 <= i < |published| :: AllCarry(WithoutNoops(published[i]), OpsOf(k.commits[i].block.transactions))
  }

  /** From the keeper's starting point, what any number of its sealed blocks published rebuilds the ledger, the block
      number and the priority counter the keeper had after them. */
  lemma {:induction false} RestoreFollowsKeeper(k: Keeper, k0: Keeper, published: seq<seq<FranklinOp>>)
    requires KeeperInv(k, k0) && AllCarried(k, published)
    ensures RestoreChain(TreeAt(k0, k.commits, 0), published, k0.blockNumber, k0.feeAccount, k0.sizes) ==
            Done(TreeAt(k0, k.commits, |published|))
  {
    hide KeeperInv, AllCarry, RestoreBlock;
    if published != [] {
      var n := |published| - 1;
      RestoreFollowsKeeper(k, k0, published[..n]);
      RestoreSealedBlock(k, k0, n, published[n]);
      NumberOf(k, k0, n);
    }
  }

  lemma NumberOf(k: Keeper, k0: Keeper, i: nat)
    requires KeeperInv(k, k0) && i < |k.commits|
    ensures k.commits[i].block.number == k0.blockNumber + i
  {
    CommitHolds(k, k0, i);
  }
}
