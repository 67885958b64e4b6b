/** From the bytes of all the blocks the state keeper sealed back to its ledger. */
module PublishedBlocks {
  import opened Types
  import opened Ledger
  import opened LedgerRuns
  import opened Blocks
  import opened Powers
  import opened Bits
  import opened Keeper
  import opened KeeperBlocks
  import opened Restore
  import opened RestoreBlocks
  import opened PubData

  // ---------- What is executed can be published ----------

  /** What the source's types guarantee of a request, and that its fee passed the packability check. */
  predicate TypedItem(item: Item) {
    match item
    case Priority(PriorityOp(_, DepositRequest(d))) => d.token < Pow(256, TOKEN) && d.to < Pow(256, ADDRESS)
    case Priority(PriorityOp(_, FullExitRequest(e))) => e.ethAddress < Pow(256, ADDRESS)
    case Transaction(TransferTx(t)) => t.token < Pow(256, TOKEN) && t.to < Pow(256, ADDRESS) && PackableFee(t.fee)
    case Transaction(WithdrawTx(w)) => w.token < Pow(256, TOKEN) && w.to < Pow(256, ADDRESS) && PackableFee(w.fee)
    case Transaction(CloseTx(_)) => true
    case Transaction(ChangePubKeyTx(p)) =>
      p.newPubKeyHash < Pow(256, ADDRESS) && p.account < Pow(256, ADDRESS) && p.nonce < Pow(256, NONCE)
  }

  lemma IdFits(s: State, id: AccountId)
    requires Inv(s) && (id in s.accounts || (id == |s.accounts| && id < CAPACITY))
    ensures id < Pow(256, ID)
  {
    assert Pow(256, 1) == 256 && Pow(256, 2) == 65536;
    assert Pow(256, 3) == CAPACITY;
  }

  lemma TransferIsTyped(s: State, t: Transfer)
    requires Inv(s) && ExecuteTransfer(s, t).Done? && TypedItem(Transaction(TransferTx(t)))
    ensures Typed(ExecuteTransfer(s, t).value.op) && !ExecuteTransfer(s, t).value.op.NoopOp?
  {
    hide Inv, ExecuteTransfer, Extends, Pow, PackableFee, Insert;
    TransferShape(s, t);
    IdFits(s, s.index[t.from]);
    if t.to != t.from {
      IdFits(s, Slot(s, t.to));
    }
  }

  lemma DepositIsTyped(s: State, d: Deposit)
    requires Inv(s) && ExecuteDeposit(s, d).Done? && d.token < Pow(256, TOKEN) && d.to < Pow(256, ADDRESS)
    ensures Typed(ExecuteDeposit(s, d).value.op) && !ExecuteDeposit(s, d).value.op.NoopOp?
  {
    hide Inv, ExecuteDeposit, Pow, Insert;
    DepositShape(s, d);
    IdFits(s, Slot(s, d.to));
  }

  lemma ChangePubKeyIsTyped(s: State, p: ChangePubKey)
    requires Inv(s) && ExecuteChangePubKey(s, p).Done? && TypedItem(Transaction(ChangePubKeyTx(p)))
    ensures Typed(ExecuteChangePubKey(s, p).value.op) && !ExecuteChangePubKey(s, p).value.op.NoopOp?
  {
    hide Inv, ExecuteChangePubKey, Pow, Insert;
    ChangePubKeyShape(s, p);
    IdFits(s, s.index[p.account]);
  }

  lemma ExecutedIsTyped(s: State, item: Item)
    requires Inv(s) && Execute(s, item).Done? && TypedItem(item)
    ensures Typed(Execute(s, item).value.op) && !Execute(s, item).value.op.NoopOp?
  {
    hide Inv, ExecuteDeposit, ExecuteTransfer, ExecuteWithdraw, ExecuteChangePubKey, Extends, Pow, PackableFee, Insert,
         ExitUpdates;
    match item
    case Priority(PriorityOp(_, DepositRequest(d))) =>
      DepositIsTyped(s, d);
    case Priority(PriorityOp(_, FullExitRequest(e))) =>
      IdFits(s, e.accountId);
    case Transaction(TransferTx(t)) =>
      TransferIsTyped(s, t);
    case Transaction(WithdrawTx(w)) =>
      WithdrawShape(s, w);
      IdFits(s, s.index[w.from]);
    case Transaction(ChangePubKeyTx(p)) =>
      ChangePubKeyIsTyped(s, p);
  }

  predicate AllTypedItems(items: seq<Item>) {
    forall i | 0 <= i < |items| :: TypedItem(items[i])
  }

  predicate NoNoops(ops: seq<FranklinOp>) {
    forall i | 0 <= i < |ops| :: !ops[i].NoopOp?
  }

  lemma {:induction false} RunIsTyped(s: State, items: seq<Item>)
    requires Inv(s) && AllTypedItems(items)
    ensures AllTyped(Ops(RunAll(s, items).done)) && NoNoops(Ops(RunAll(s, items).done))
  {
    if items != [] {
      hide Inv, Execute, Extends, Typed, TypedItem;
      var before, last := RunAll(s, items[..|items| - 1]), items[|items| - 1];
      RunIsTyped(s, items[..|items| - 1]);
      RunKeepsInv(s, items[..|items| - 1]);
      if !before.halted && Execute(before.state, last).Done? {
        assert TypedItem(last);
        ExecutedIsTyped(before.state, last);
        assert Ops(RunAll(s, items).done) == Ops(before.done) + [Execute(before.state, last).value.op];
      }
    }
  }

  // ---------- A block's bytes ----------

  function BlockData(b: Block): seq<Byte>
    requires AllTyped(OpsOf(b.transactions))
  {
    Resize(AllPublicData(OpsOf(b.transactions)), 8 * b.chunksSize)
  }

  function ChunksOfOps(ops: seq<FranklinOp>): nat {
    if ops == [] then 0 else ops[0].Chunks() + ChunksOfOps(ops[1..])
  }

  lemma {:induction false} DataLength(ops: seq<FranklinOp>)
    requires AllTyped(ops)
    ensures |AllPublicData(ops)| == 8 * ChunksOfOps(ops)
  {
    hide PublicData, Typed;
    if ops != [] {
      PublicDataLengths(ops[0]);
      DataLength(ops[1..]);
    }
  }

  lemma {:induction false} ChunksConcat(a: seq<FranklinOp>, b: seq<FranklinOp>)
    ensures ChunksOfOps(a + b) == ChunksOfOps(a) + ChunksOfOps(b)
  {
    if a == [] {
      assert a + b == b;
    } else {
      assert (a + b)[1..] == a[1..] + b;
      ChunksConcat(a[1..], b);
    }
  }

  lemma {:induction false} ChunksOfBlock(ops: seq<ExecutedOp>)
    ensures ChunksOfOps(OpsOf(ops)) == ChunksUsed(ops)
  {
    if ops != [] {
      ChunksOfBlock(ops[..|ops| - 1]);
      ChunksConcat(OpsOf(ops[..|ops| - 1]), ops[|ops| - 1].Ops());
    }
  }

  lemma {:induction false} NoopsVanish(ops: seq<FranklinOp>, n: nat)
    requires NoNoops(ops)
    ensures WithoutNoops(Wires(ops) + Noops(n)) == Wires(ops)
    decreases |ops|, n
  {
    var all := Wires(ops) + Noops(n);
    if n > 0 {
      assert all[..|all| - 1] == Wires(ops) + Noops(n - 1);
      NoopsVanish(ops, n - 1);
    } else if ops != [] {
      var m := |ops| - 1;
      assert all[..m] == Wires(ops[..m]) + Noops(0);
      NoopsVanish(ops[..m], 0);
      assert Wires(ops) == Wires(ops[..m]) + [Wire(ops[m])];
    }
  }

  /** A block's bytes are read back as the operations it executed, padded with no-ops. */
  lemma BlockDataBack(b: Block)
    requires AllTyped(OpsOf(b.transactions)) && NoNoops(OpsOf(b.transactions))
    requires ChunksUsed(b.transactions) <= b.chunksSize
    ensures var r := ParseOps(BlockData(b));
            r.Done? && AllCarry(WithoutNoops(r.value), OpsOf(b.transactions))
  {
    hide Typed, ParseOps, PublicData, Wire, Carries;
    var ops := OpsOf(b.transactions);
    DataLength(ops);
    ChunksOfBlock(b.transactions);
    var padding := b.chunksSize - ChunksUsed(b.transactions);
    ParsePublished(ops, padding);
    NoopsVanish(ops, padding);
    forall i | 0 <= i < |ops| ensures Carries(Wires(ops)[i], ops[i]) {
      WireCarries(ops[i]);
    }
  }

  // ---------- All the way back ----------

  ghost predicate TypedChain(k: Keeper) {
    forall i | 0 <= i < |k.commits| :: AllTypedItems(k.commits[i].items)
  }

  lemma SealedIsPublishable(k: Keeper, k0: Keeper, i: nat)
    requires KeeperInv(k, k0) && TypedChain(k) && i < |k.commits|
    ensures var b := k.commits[i].block;
            && AllTyped(OpsOf(b.transactions)) && NoNoops(OpsOf(b.transactions))
            && ChunksUsed(b.transactions) <= b.chunksSize
  {
    hide KeeperInv, RunAll, Inv, Landing, Lost, Ops, OpsOf, AllTyped, NoNoops, AllTypedItems;
    var c, base := k.commits[i], BaseAt(k0, k.commits, i);
    CommitHolds(k, k0, i);
    BaseHolds(k, k0, i);
    var r := RunAll(base, c.items);
    OpsOfLost(Landing(r.done), r.refused);
    OpsOfLanding(r.done);
    RunIsTyped(base, c.items);
    SortedSizes(k, k0);
    FirstFitIsSmallest(ChunksUsed(c.block.transactions), k0.sizes);
  }

  /** The operations the restorer reads from the bytes of the first `n` sealed blocks. */
  function ReadBlocks(k: Keeper, n: nat): seq<seq<FranklinOp>>
    requires n <= |k.commits|
  {
    seq(n, i requires 0 <= i < n =>
      var ops := OpsOf(k.commits[i].block.transactions);
      if AllTyped(ops) then
        (match ParseOps(BlockData(k.commits[i].block))
         case Done(read) => read
         case _ => [])
      else [])
  }

  /** From the keeper's starting point, the bytes of all its sealed blocks, those the committer drops included, rebuild
      the ledger, block number and priority counter it had after them. What is really published may lack some. */
  lemma BytesRestoreKeeper(k: Keeper, k0: Keeper, n: nat)
    requires KeeperInv(k, k0) && TypedChain(k) && n <= |k.commits|
    ensures RestoreChain(TreeAt(k0, k.commits, 0), ReadBlocks(k, n), k0.blockNumber, k0.feeAccount, k0.sizes) ==
            Done(TreeAt(k0, k.commits, n))
  {
    hide KeeperInv, TypedChain, AllTyped, NoNoops, BlockData, ParseOps, AllCarry, OpsOf, RestoreChain;
    forall i | 0 <= i < n
      ensures AllCarry(WithoutNoops(ReadBlocks(k, n)[i]), OpsOf(k.commits[i].block.transactions))
    {
      SealedIsPublishable(k, k0, i);
      BlockDataBack(k.commits[i].block);
    }
    RestoreFollowsKeeper(k, k0, ReadBlocks(k, n));
  }
}
