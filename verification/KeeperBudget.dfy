/** How many blocks one mini-block can seal: at most one, when its requests together
    ask for no more than the largest block holds. */
module KeeperBudget {
  import opened Types
  import opened Ledger
  import opened LedgerRuns
  import opened Blocks
  import opened Keeper
  import opened KeeperProgress

  /** Space a whole queue asks for, by someone who knows these addresses to have accounts. */
  function Demand(known: set<Address>, items: seq<Item>): nat {
    if items == [] then 0 else Need(known, items[0]) + Demand(known, items[1..])
  }

  lemma {:induction false} DemandConcat(known: set<Address>, a: seq<Item>, b: seq<Item>)
    ensures Demand(known, a + b) == Demand(known, a) + Demand(known, b)
  {
    if a == [] {
      assert a + b == b;
    } else {
      assert (a + b)[1..] == a[1..] + b;
      DemandConcat(known, a[1..], b);
    }
  }

  /** Whoever knows more addresses asks for no more. */
  lemma {:induction false} KnowingMoreCostsLess(known: set<Address>, more: set<Address>, items: seq<Item>)
    requires known <= more
    ensures Demand(more, items) <= Demand(known, items)
  {
    if items != [] {
      KnowingMoreCostsLess(known, more, items[1..]);
    }
  }

  lemma {:induction false} DemandFits(s: State, items: seq<Item>, max: nat)
    requires Inv(s) && Demand(s.index.Keys, items) <= max
    ensures AllFit(s, items, max)
    decreases |items|
  {
    hide Inv, Execute;
    if items != [] {
      match Execute(s, items[0])
      case Done(e) =>
        ExecuteKeepsInv(s, items[0]);
        KnowingMoreCostsLess(s.index.Keys, e.state.index.Keys, items[1..]);
        DemandFits(e.state, items[1..], max);
      case Rejected(_) => DemandFits(s, items[1..], max);
      case Panicked =>
    }
  }

  /** Since `base` blocks were sealed: either none was, and the queue fits an empty block;
      or one was, and the queue fits what is left of the block after it. */
  ghost predicate Budget(k: Keeper, base: nat) {
    && base <= |k.commits| <= base + 1
    && (Running(k) ==>
          var demand := Demand(k.state.index.Keys, Queue(k));
          if |k.commits| == base then demand <= Max(k.sizes)
          else demand <= k.pending.chunksLeft && k.pending.iteration == 0)
  }

  lemma FinishKeepsBudget(k: Keeper, base: nat)
    requires Budget(k, base) && Running(k) && Queue(k) == []
    ensures Budget(Finish(k), base)
  {
    hide FirstFit, ChunksUsed;
  }

  lemma StepKeepsBudget(k: Keeper, k0: Keeper, base: nat)
    requires KeeperInv(k, k0) && Budget(k, base)
    ensures Budget(KeeperStep(k), base)
  {
    hide KeeperInv, KeeperStep, Finish, Execute, Inv;
    var next := KeeperStep(k);
    if !Running(k) {
      StepWaits(k);
    } else if Queue(k) == [] {
      StepIsFinish(k);
      FinishKeepsBudget(k, base);
    } else if next.halted {
      HaltSealsNothing(k);
    } else {
      StepShape(k);
      SealMakesRoom(k);
      if HeadFits(k) {
        KnownGrows(k, k0);
        KnowingMoreCostsLess(k.state.index.Keys, next.state.index.Keys, Queue(next));
      } else {
        SealsOne(k);
      }
    }
  }

  lemma StepWaits(k: Keeper)
    requires !Running(k)
    ensures KeeperStep(k) == k
  {
  }

  lemma SealsOne(k: Keeper)
    requires !Seal(Notify(k)).halted
    ensures |Seal(Notify(k)).commits| == |k.commits| + 1 && Seal(Notify(k)).pending.iteration == 0
  {
  }

  lemma HaltSealsNothing(k: Keeper)
    requires !k.halted && KeeperStep(k).halted
    ensures KeeperStep(k).commits == k.commits
  {
    hide FirstFit, ChunksUsed, ExecutePriority, ExecuteTx;
  }

  /** The ledger only ever grows under the keeper. */
  lemma KnownGrows(k: Keeper, k0: Keeper)
    requires KeeperInv(k, k0)
    ensures Extends(k.state, KeeperStep(k).state)
    ensures k.state.index.Keys <= KeeperStep(k).state.index.Keys
  {
    hide FirstFit, ChunksUsed, ExecutePriority, ExecuteTx, RunAll, ChainOk, Inv;
    ExtendsReflexive(k.state);
    if Running(k) && k.priority != [] && ExecutePriority(k.state, k.priority[0].data).Done? {
      ExecuteKeepsInv(k.state, Priority(k.priority[0]));
    } else if Running(k) && k.priority == [] && k.txs != [] && ExecuteTx(k.state, k.txs[0]).Done? {
      ExecuteKeepsInv(k.state, Transaction(k.txs[0]));
    }
  }

  /** A mini-block that asks for no more than the largest block holds ends, and seals at most one block. */
  lemma {:induction false} OneSealPerMiniBlock(k: Keeper, k0: Keeper, base: nat)
    requires KeeperInv(k, k0) && Budget(k, base)
    requires Running(k) ==> AllFit(k.state, Queue(k), Max(k.sizes))
    ensures |Drain(k).commits| <= base + 1
    decreases Rank(k)
  {
    hide KeeperInv, KeeperStep, AllFit;
    if Running(k) {
      StepDecreases(k);
      StepKeepsBudget(k, k0, base);
      KeeperStepKeepsInv(k, k0);
      OneSealPerMiniBlock(KeeperStep(k), k0, base);
    }
  }
}
