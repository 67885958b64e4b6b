/** Executed operations and the blocks they are sealed into. */
module Blocks {
  import opened Types
  import opened Ledger

  /** A failed transaction has neither an operation nor a place in the block. */
  datatype TxResult = Success(op: FranklinOp, blockIndex: nat) | Failure(reason: Reason)

  datatype ExecutedOp =
    | ExecutedPriority(request: PriorityOp, op: FranklinOp, blockIndex: nat)
    | ExecutedTx(tx: Tx, result: TxResult)
  {
    predicate Succeeded() {
      ExecutedPriority? || result.Success?
    }

    /** `get_executed_op`, as a list of at most one operation. */
    function Ops(): seq<FranklinOp> {
      if ExecutedPriority? then [op] else if result.Success? then [result.op] else []
    }

    function Chunks(): nat {
      if Succeeded() then Ops()[0].Chunks() else 0
    }
  }

  /** `root` is the ledger that the block's root hash commits to; `priorityOps` holds the
      first unprocessed serial id before and after the block. */
  datatype Block = Block(
    number: nat, root: State, feeAccount: AccountId, transactions: seq<ExecutedOp>,
    priorityOps: (nat, nat), chunksSize: nat)

  function ChunksUsed(ops: seq<ExecutedOp>): nat {
    if ops == [] then 0 else ChunksUsed(ops[..|ops| - 1]) + ops[|ops| - 1].Chunks()
  }

  lemma {:induction false} ChunksUsedConcat(a: seq<ExecutedOp>, b: seq<ExecutedOp>)
    ensures ChunksUsed(a + b) == ChunksUsed(a) + ChunksUsed(b)
  {
    if b == [] {
      assert a + b == a;
    } else {
      assert (a + b)[..|a + b| - 1] == a + b[..|b| - 1];
      ChunksUsedConcat(a, b[..|b| - 1]);
    }
  }

  /** The first available size that holds the chunks; the source aborts when there is none. */
  method SmallestBlockSize(chunks: nat, sizes: seq<nat>) returns (size: Option<nat>)
    ensures size == FirstFit(chunks, sizes)
  {
    for i := 0 to |sizes|
      invariant forall j | 0 <= j < i :: sizes[j] < chunks
      invariant FirstFit(chunks, sizes) == FirstFit(chunks, sizes[i..])
    {
      if sizes[i] >= chunks {
        return Some(sizes[i]);
      }
      assert sizes[i..][1..] == sizes[i + 1..];
    }
    return None;
  }

  function FirstFit(chunks: nat, sizes: seq<nat>): Option<nat> {
    if sizes == [] then None
    else if sizes[0] >= chunks then Some(sizes[0])
    else FirstFit(chunks, sizes[1..])
  }

  predicate Sorted(sizes: seq<nat>) {
    forall i, j | 0 <= i < j < |sizes| :: sizes[i] <= sizes[j]
  }

  /** In an ascending list the first size that fits is the smallest that fits, and one fits iff the last does. */
  lemma {:induction false} FirstFitIsSmallest(chunks: nat, sizes: seq<nat>)
    requires Sorted(sizes) && sizes != []
    ensures FirstFit(chunks, sizes).Some? <==> chunks <= sizes[|sizes| - 1]
    ensures FirstFit(chunks, sizes).Some? ==>
              && chunks <= FirstFit(chunks, sizes).value
              && FirstFit(chunks, sizes).value in sizes
              && forall size | size in sizes && chunks <= size :: FirstFit(chunks, sizes).value <= size
  {
    if sizes[0] < chunks && |sizes| > 1 {
      FirstFitIsSmallest(chunks, sizes[1..]);
      assert sizes[1..][|sizes| - 2] == sizes[|sizes| - 1];
      assert forall size | size in sizes :: size == sizes[0] || size in sizes[1..];
    }
  }
}
