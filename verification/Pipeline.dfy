/** The block-forming pipeline: watcher, mempool, proposer, state keeper and committer,
    passing messages over first-in-first-out channels. One event is one step of one of
    them; every interleaving is a sequence of events. */
module Pipeline {
  import opened Types
  import opened Ledger
  import opened EthWatch
  import opened Mempool
  import opened Keeper

  datatype Message = NewTx(tx: Tx) | GetBlock(first: nat) | UpdateNonces(updates: Updates)

  /** How far the proposer's request for a mini-block has come. */
  datatype Phase =
    | Resting
    | Asked
    | Selecting(first: nat)
    | Selected(ops: seq<PriorityOp>)
    | Answered(ops: seq<PriorityOp>, txs: seq<Tx>)

  /** `admitted`, `refused` and `heard` are history: the transactions the mempool took and turned away, and the
      account updates it has heard. `started` is how many blocks were sealed when the keeper last took a mini-block. */
  datatype System = System(
    watcher: PriorityQueue, pool: Pool, inbox: seq<Message>, counter: nat, phase: Phase, toKeeper: seq<Request>,
    keeper: Keeper, delivered: nat, started: nat, admitted: seq<Tx>, refused: seq<Tx>, heard: Updates)

  datatype Event =
    | Poll(ops: seq<PriorityOp>)
    | Submit(tx: Tx)
    | Tick
    | PoolTakes
    | WatcherAnswers
    | PoolAnswers
    | ProposerSends
    | AskSeal
    | KeeperTakes
    | KeeperTurns
    | CommitterTakes

  /** A block the committer stores without committing it. */
  predicate Dropped(c: Commit) {
    c.updates == [] && c.block.priorityOps.0 == c.block.priorityOps.1
  }

  function PoolTake(s: System): System
    requires s.inbox != []
  {
    var rest := s.(inbox := s.inbox[1..]);
    match s.inbox[0]
    case NewTx(tx) =>
      if Admits(s.pool, tx) then
        rest.(pool := s.pool.(ready := s.pool.ready + [tx]), admitted := s.admitted + [tx])
      else rest.(refused := s.refused + [tx])
    case GetBlock(first) => rest.(phase := Selecting(first))
    case UpdateNonces(updates) => rest.(pool := HearAll(s.pool, updates), heard := s.heard + updates)
  }

  function PoolAnswer(s: System): System
    requires s.phase.Selected?
  {
    var max := Max(s.keeper.sizes);
    var room := if ChunksOf(s.phase.ops) <= max then max - ChunksOf(s.phase.ops) else 0;
    var n := CountFitting(s.pool.nonces.Keys, s.pool.ready, room, 0);
    s.(phase := Answered(s.phase.ops, s.pool.ready[..n]), pool := s.pool.(ready := s.pool.ready[n..]))
  }

  function KeeperTake(s: System): System
    requires s.toKeeper != []
  {
    var rest := s.(toKeeper := s.toKeeper[1..]);
    match s.toKeeper[0]
    case MiniBlock(priority, txs) =>
      rest.(keeper := Accept(s.keeper, priority, txs), started := |s.keeper.commits|)
    case SealBlock => rest.(keeper := Seal(s.keeper))
  }

  /** An event that cannot happen in a state leaves it as it is. */
  function Next(s: System, e: Event): System {
    match e
    case Poll(ops) => s.(watcher := Collect(s.watcher, ops))
    case Submit(tx) => s.(inbox := s.inbox + [NewTx(tx)])
    case Tick => if s.phase.Resting? then s.(inbox := s.inbox + [GetBlock(s.counter)], phase := Asked) else s
    case PoolTakes => if s.inbox != [] && !s.phase.Selecting? && !s.phase.Selected? then PoolTake(s) else s
    case WatcherAnswers =>
      if s.phase.Selecting? then
        s.(phase := Selected(Select(s.watcher, s.phase.first, Max(s.keeper.sizes), [])))
      else s
    case PoolAnswers => if s.phase.Selected? then PoolAnswer(s) else s
    case ProposerSends =>
      if s.phase.Answered? then
        s.(counter := s.counter + |s.phase.ops|, phase := Resting,
           toKeeper := s.toKeeper + [MiniBlock(s.phase.ops, s.phase.txs)])
      else s
    case AskSeal => s.(toKeeper := s.toKeeper + [SealBlock])
    case KeeperTakes => if s.toKeeper != [] && !s.keeper.busy && !s.keeper.halted then KeeperTake(s) else s
    case KeeperTurns => s.(keeper := KeeperStep(s.keeper))
    case CommitterTakes =>
      if s.delivered < |s.keeper.commits| then
        var c := s.keeper.commits[s.delivered];
        s.(delivered := s.delivered + 1, inbox := s.inbox + if Dropped(c) then [] else [UpdateNonces(c.updates)])
      else s
  }

  function Play(s: System, events: seq<Event>): System {
    if events == [] then s else Next(Play(s, events[..|events| - 1]), events[|events| - 1])
  }

  lemma {:induction false} PlayConcat(s: System, a: seq<Event>, b: seq<Event>)
    ensures Play(s, a + b) == Play(Play(s, a), b)
  {
    if b == [] {
      assert a + b == a;
    } else {
      hide Next;
      assert (a + b)[..|a + b| - 1] == a + b[..|b| - 1];
      PlayConcat(s, a, b[..|b| - 1]);
    }
  }

  /** All start from the same ledger; the proposer starts at the keeper's counter. */
  ghost predicate Starts(s: System) {
    && Initial(s.keeper)
    && Keyed(s.watcher)
    && Knows(s.pool, s.keeper.state.accounts) && s.pool.ready == []
    && s.inbox == [] && s.phase.Resting? && s.toKeeper == []
    && s.counter == s.keeper.unprocessed
    && s.delivered == 0 && s.started == 0 && s.admitted == [] && s.refused == [] && s.heard == []
  }

  // ---------- What is in flight ----------

  function Gather<A, B>(f: A -> seq<B>, s: seq<A>): seq<B> {
    if s == [] then [] else Gather(f, s[..|s| - 1]) + f(s[|s| - 1])
  }

  lemma {:induction false} GatherConcat<A, B>(f: A -> seq<B>, s: seq<A>, t: seq<A>)
    ensures Gather(f, s + t) == Gather(f, s) + Gather(f, t)
  {
    if t == [] {
      assert s + t == s;
    } else {
      assert (s + t)[..|s + t| - 1] == s + t[..|t| - 1];
      GatherConcat(f, s, t[..|t| - 1]);
    }
  }

  lemma GatherMore<A, B>(f: A -> seq<B>, s: seq<A>, x: A)
    ensures Gather(f, s + [x]) == Gather(f, s) + f(x)
  {
    assert (s + [x])[..|s|] == s;
  }

  lemma GatherFirst<A, B>(f: A -> seq<B>, s: seq<A>)
    requires s != []
    ensures Gather(f, s) == f(s[0]) + Gather(f, s[1..])
  {
    assert s == [s[0]] + s[1..];
    GatherConcat(f, [s[0]], s[1..]);
    GatherMore(f, [], s[0]);
    assert [] + [s[0]] == [s[0]];
  }

  function PriorityIn(item: Item): seq<PriorityOp> {
    if item.Priority? then [item.request] else []
  }

  function TxIn(item: Item): seq<Tx> {
    if item.Transaction? then [item.tx] else []
  }

  function OpsIn(request: Request): seq<PriorityOp> {
    if request.MiniBlock? then request.priority else []
  }

  function TxsIn(request: Request): seq<Tx> {
    if request.MiniBlock? then request.txs else []
  }

  function FirstIn(message: Message): seq<nat> {
    if message.GetBlock? then [message.first] else []
  }

  function UpdatesIn(message: Message): Updates {
    if message.UpdateNonces? then message.updates else []
  }

  lemma {:induction false} GatherPriorityItems(ops: seq<PriorityOp>)
    ensures Gather(PriorityIn, PriorityItems(ops)) == ops
    ensures Gather(TxIn, PriorityItems(ops)) == []
  {
    if ops != [] {
      assert PriorityItems(ops)[..|ops| - 1] == PriorityItems(ops[..|ops| - 1]);
      GatherPriorityItems(ops[..|ops| - 1]);
    }
  }

  lemma {:induction false} GatherTxItems(txs: seq<Tx>)
    ensures Gather(TxIn, TxItems(txs)) == txs
    ensures Gather(PriorityIn, TxItems(txs)) == []
  {
    if txs != [] {
      assert TxItems(txs)[..|txs| - 1] == TxItems(txs[..|txs| - 1]);
      GatherTxItems(txs[..|txs| - 1]);
    }
  }

  /** Accepting a mini-block moves its requests, in order, into what the keeper has accepted. */
  lemma GatherAccepted(k: Keeper, priority: seq<PriorityOp>, txs: seq<Tx>)
    ensures Gather(PriorityIn, Accept(k, priority, txs).accepted) == Gather(PriorityIn, k.accepted) + priority
    ensures Gather(TxIn, Accept(k, priority, txs).accepted) == Gather(TxIn, k.accepted) + txs
  {
    var p, t := PriorityItems(priority), TxItems(txs);
    GatherConcat(PriorityIn, k.accepted + p, t);
    GatherConcat(PriorityIn, k.accepted, p);
    GatherConcat(TxIn, k.accepted + p, t);
    GatherConcat(TxIn, k.accepted, p);
    GatherPriorityItems(priority);
    GatherTxItems(txs);
  }
}
