/** The watcher's queue of priority operations and the selection it offers a new mini-block. */
module EthWatch {
  import opened Types

  type PriorityQueue = map<nat, PriorityOp>

  /** Every operation is stored under its own serial id. */
  ghost predicate Keyed(queue: PriorityQueue) {
    forall n | n in queue :: queue[n].serialId == n
  }

  /** Later events replace earlier ones with the same serial id. */
  function Collect(queue: PriorityQueue, ops: seq<PriorityOp>): PriorityQueue {
    if ops == [] then queue
    else Collect(queue, ops[..|ops| - 1])[ops[|ops| - 1].serialId := ops[|ops| - 1]]
  }

  lemma {:induction false} CollectKeepsKeyed(queue: PriorityQueue, ops: seq<PriorityOp>)
    requires Keyed(queue)
    ensures Keyed(Collect(queue, ops))
  {
    if ops != [] {
      CollectKeepsKeyed(queue, ops[..|ops| - 1]);
    }
  }

  /** Event `i` is the last one with serial id `n`. */
  predicate LastWith(ops: seq<PriorityOp>, n: nat, i: nat) {
    i < |ops| && ops[i].serialId == n && forall j | i < j < |ops| :: ops[j].serialId != n
  }

  predicate Mentions(ops: seq<PriorityOp>, n: nat) {
    exists i :: 0 <= i < |ops| && ops[i].serialId == n
  }

  lemma MentionsOneMore(ops: seq<PriorityOp>, n: nat)
    requires ops != []
    ensures Mentions(ops, n) <==> Mentions(ops[..|ops| - 1], n) || ops[|ops| - 1].serialId == n
  {
    var init := ops[..|ops| - 1];
    assert forall i | 0 <= i < |init| :: init[i] == ops[i];
  }

  lemma {:induction false} CollectKeys(queue: PriorityQueue, ops: seq<PriorityOp>, n: nat)
    ensures n in Collect(queue, ops) <==> n in queue || Mentions(ops, n)
  {
    if ops == [] {
      assert !Mentions(ops, n);
    } else {
      hide Mentions;
      CollectKeys(queue, ops[..|ops| - 1], n);
      MentionsOneMore(ops, n);
    }
  }

  lemma LastOneMore(ops: seq<PriorityOp>, n: nat, i: nat)
    requires LastWith(ops, n, i) && ops[|ops| - 1].serialId != n
    ensures LastWith(ops[..|ops| - 1], n, i) && i < |ops| - 1 && ops[..|ops| - 1][i] == ops[i]
  {
  }

  lemma {:induction false} CollectLast(queue: PriorityQueue, ops: seq<PriorityOp>, n: nat, i: nat)
    requires LastWith(ops, n, i)
    ensures n in Collect(queue, ops) && Collect(queue, ops)[n] == ops[i]
  {
    if ops[|ops| - 1].serialId != n {
      LastOneMore(ops, n, i);
      hide LastWith;
      CollectLast(queue, ops[..|ops| - 1], n, i);
    } else {
      assert i == |ops| - 1;
    }
  }

  lemma {:induction false} CollectLeaves(queue: PriorityQueue, ops: seq<PriorityOp>, n: nat)
    requires n in queue && !Mentions(ops, n)
    ensures n in Collect(queue, ops) && Collect(queue, ops)[n] == queue[n]
  {
    if ops != [] {
      MentionsOneMore(ops, n);
      hide Mentions;
      CollectLeaves(queue, ops[..|ops| - 1], n);
    }
  }

  /** Every event is kept: an id is in the queue exactly when it was or came with an event, and under it is the
      operation that came last. */
  lemma CollectExactly(queue: PriorityQueue, ops: seq<PriorityOp>, n: nat)
    ensures n in Collect(queue, ops) <==> n in queue || Mentions(ops, n)
    ensures forall i: nat | LastWith(ops, n, i) :: n in Collect(queue, ops) && Collect(queue, ops)[n] == ops[i]
    ensures n in queue && !Mentions(ops, n) ==> Collect(queue, ops)[n] == queue[n]
  {
    hide Collect;
    CollectKeys(queue, ops, n);
    forall i: nat | LastWith(ops, n, i) ensures n in Collect(queue, ops) && Collect(queue, ops)[n] == ops[i] {
      CollectLast(queue, ops, n, i);
    }
    if n in queue && !Mentions(ops, n) {
      CollectLeaves(queue, ops, n);
    }
  }

  lemma {:induction false} CollectConcat(queue: PriorityQueue, a: seq<PriorityOp>, b: seq<PriorityOp>)
    ensures Collect(queue, a + b) == Collect(Collect(queue, a), b)
  {
    if b == [] {
      assert a + b == a;
    } else {
      assert (a + b)[..|a + b| - 1] == a + b[..|b| - 1];
      CollectConcat(queue, a, b[..|b| - 1]);
    }
  }

  function ChunksOf(ops: seq<PriorityOp>): nat {
    if ops == [] then 0 else ChunksOf(ops[..|ops| - 1]) + PriorityChunks(ops[|ops| - 1].data)
  }

  predicate Stored(queue: PriorityQueue, n: nat, op: PriorityOp) {
    n in queue && queue[n] == op
  }

  /** The stored operations from serial id `first` on, without a gap, and as many as fit. */
  ghost predicate Selection(queue: PriorityQueue, first: nat, room: nat, ops: seq<PriorityOp>) {
    && (forall i | 0 <= i < |ops| :: Stored(queue, first + i, ops[i]))
    && ChunksOf(ops) <= room
    && (first + |ops| in queue ==> ChunksOf(ops) + PriorityChunks(queue[first + |ops|].data) > room)
  }

  lemma {:induction false} LongerCostsMore(ops: seq<PriorityOp>, n: nat)
    requires n < |ops|
    ensures ChunksOf(ops[..n]) + PriorityChunks(ops[n].data) <= ChunksOf(ops)
  {
    if n < |ops| - 1 {
      assert ops[..|ops| - 1][..n] == ops[..n];
      LongerCostsMore(ops[..|ops| - 1], n);
    }
  }

  /** There is only one such selection. */
  lemma SelectionIsUnique(queue: PriorityQueue, first: nat, room: nat, a: seq<PriorityOp>, b: seq<PriorityOp>)
    requires Selection(queue, first, room, a) && Selection(queue, first, room, b)
    ensures a == b
  {
    if |a| < |b| {
      assert a == b[..|a|];
      LongerCostsMore(b, |a|);
    } else if |b| < |a| {
      assert b == a[..|b|];
      LongerCostsMore(a, |b|);
    }
  }

  /** Whatever is stored from the first id on, as far as there is room for it, is selected. */
  lemma SelectionTakesAll(queue: PriorityQueue, first: nat, room: nat, ops: seq<PriorityOp>, want: seq<PriorityOp>)
    requires Selection(queue, first, room, ops)
    requires (forall i | 0 <= i < |want| :: Stored(queue, first + i, want[i])) && ChunksOf(want) <= room
    ensures want <= ops
  {
    forall i | 0 <= i < |want| && i < |ops| ensures want[i] == ops[i] {
      assert Stored(queue, first + i, want[i]) && Stored(queue, first + i, ops[i]);
    }
    if |ops| < |want| {
      assert Stored(queue, first + |ops|, want[|ops|]);
      assert ops == want[..|ops|];
      LongerCostsMore(want, |ops|);
    }
  }

  /** The selection, continuing from the operations chosen so far. */
  function Select(queue: PriorityQueue, first: nat, room: nat, chosen: seq<PriorityOp>): (ops: seq<PriorityOp>)
    requires forall i | 0 <= i < |chosen| :: Stored(queue, first + i, chosen[i])
    requires ChunksOf(chosen) <= room
    ensures Selection(queue, first, room, ops)
    decreases room - ChunksOf(chosen)
  {
    var next := first + |chosen|;
    if next in queue && ChunksOf(chosen) + PriorityChunks(queue[next].data) <= room then
      var more := chosen + [queue[next]];
      assert more[..|more| - 1] == chosen;
      Select(queue, first, room, more)
    else chosen
  }

  class EthWatcher {
    var priorityQueue: PriorityQueue

    constructor ()
      ensures priorityQueue == map[]
    {
      priorityQueue := map[];
    }

    method InsertRequests(ops: seq<PriorityOp>)
      modifies this
      ensures priorityQueue == Collect(old(priorityQueue), ops)
      ensures old(Keyed(priorityQueue)) ==> Keyed(priorityQueue)
    {
      for i := 0 to |ops|
        invariant priorityQueue == Collect(old(priorityQueue), ops[..i])
      {
        priorityQueue := priorityQueue[ops[i].serialId := ops[i]];
        assert ops[..i + 1][..i] == ops[..i];
      }
      assert ops[..|ops|] == ops;
      if old(Keyed(priorityQueue)) {
        CollectKeepsKeyed(old(priorityQueue), ops);
      }
    }

    method GetPriorityRequests(first: nat, maxChunks: nat) returns (ops: seq<PriorityOp>)
      ensures Selection(priorityQueue, first, maxChunks, ops)
    {
      ops := [];
      var usedChunks := 0;
      var current := first;
      while current in priorityQueue
        invariant current == first + |ops| && usedChunks == ChunksOf(ops) <= maxChunks
        invariant forall i | 0 <= i < |ops| :: Stored(priorityQueue, first + i, ops[i])
        decreases maxChunks - usedChunks
      {
        var op := priorityQueue[current];
        if usedChunks + PriorityChunks(op.data) <= maxChunks {
          assert (ops + [op])[..|ops|] == ops;
          ops := ops + [op];
          usedChunks := usedChunks + PriorityChunks(op.data);
          current := current + 1;
        } else {
          break;
        }
      }
    }
  }
}
