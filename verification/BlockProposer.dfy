/** The proposer: asks the mempool for a mini-block and sends it to the state keeper. */
module BlockProposers {
  import opened Types
  import opened EthWatch
  import opened Mempool
  import opened Keeper
  import opened PipelineInv

  class BlockProposer {
    var current: nat
    var sent: seq<Request>

    constructor (unprocessed: nat)
      ensures current == unprocessed && sent == []
    {
      current, sent := unprocessed, [];
    }

    /** The counter moves past exactly the operations sent, which carry the serial ids it moved over. */
    method CommitNewTxMiniBatch(pool: MempoolState, watcher: EthWatcher, max: nat)
      returns (ops: seq<PriorityOp>, txs: seq<Tx>)
      requires Keyed(watcher.priorityQueue)
      modifies this, pool`ready
      ensures sent == old(sent) + [MiniBlock(ops, txs)]
      ensures current == old(current) + |ops| && Serial(ops, old(current))
      ensures Selection(watcher.priorityQueue, old(current), max, ops)
      ensures Fitting(pool.nonces.Keys, old(pool.ready), max - ChunksOf(ops), |txs|)
      ensures txs + pool.ready == old(pool.ready)
    {
      ops, txs := pool.ProposeNewBlock(watcher, current, max);
      current := current + |ops|;
      sent := sent + [MiniBlock(ops, txs)];
    }
  }
}
