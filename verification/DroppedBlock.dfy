/** A run of the pipeline whose only block the committer drops although it changes the ledger. */
module DroppedBlock {
  import opened Types
  import opened Ledger
  import opened Blocks
  import opened Powers
  import opened Mempool
  import opened Keeper
  import opened Restore
  import opened PubData
  import opened PublishedBlocks
  import opened ChainRestore
  import opened Pipeline
  import opened TypedRuns

  /** One account, which is also the fee account, holding one token; and a transfer of it to itself. */
  const BASE_STATE: State := State(map[0 := Account(7, 0, 1, {3})], map[7 := 0])
  const TO_SELF: Tx := TransferTx(Transfer(0, 7, 7, 3, 0, 0, Some(1)))
  const AFTER: State := State(map[0 := Account(7, 1, 1, {3})], map[7 := 0])

  const FIRST_KEEPER: Keeper :=
    Keeper(BASE_STATE, 1, 0, 0, [6], NewPending(0, 6), [], [], [], false, false, [], [], [])

  const FIRST: System :=
    System(map[], Pool(map[7 := 0], map[0 := 7], []), [], 0, Resting, [], FIRST_KEEPER, 0, 0, [], [], [])

  const PROPOSE: seq<Event> := [Submit(TO_SELF), PoolTakes, Tick, PoolTakes, WatcherAnswers, PoolAnswers, ProposerSends]

  lemma FirstStarts()
    ensures Starts(FIRST)
  {
    var s := FIRST_KEEPER.state;
    assert |s.accounts| == 1;
    assert HasAddress(s.accounts, 0, 7);
    assert Sorted(FIRST_KEEPER.sizes);
  }

  lemma PlayTwo(s: System, a: Event, b: Event)
    ensures Play(s, [a]) == Next(s, a) && Play(s, [a, b]) == Next(Next(s, a), b)
  {
    hide Next;
    assert [a][..0] == [] && [a, b][..1] == [a];
  }

  const ADMITTED: System := FIRST.(pool := FIRST.pool.(ready := [TO_SELF]), admitted := [TO_SELF])
  const PROPOSED: System := FIRST.(toKeeper := [MiniBlock([], [TO_SELF])], admitted := [TO_SELF])

  lemma Admitted()
    ensures Play(FIRST, [Submit(TO_SELF), PoolTakes]) == ADMITTED
  {
    PlayTwo(FIRST, Submit(TO_SELF), PoolTakes);
    assert FIRST.inbox + [NewTx(TO_SELF)] == [NewTx(TO_SELF)] && [NewTx(TO_SELF)][1..] == [];
  }

  lemma Asks()
    ensures Play(ADMITTED, [Tick, PoolTakes]) == ADMITTED.(phase := Selecting(0))
  {
    PlayTwo(ADMITTED, Tick, PoolTakes);
    assert ADMITTED.inbox + [GetBlock(0)] == [GetBlock(0)] && [GetBlock(0)][1..] == [];
  }

  lemma Answers()
    ensures Play(ADMITTED.(phase := Selecting(0)), [WatcherAnswers, PoolAnswers]) ==
            ADMITTED.(phase := Answered([], [TO_SELF]), pool := FIRST.pool)
  {
    var s := ADMITTED.(phase := Selecting(0));
    PlayTwo(s, WatcherAnswers, PoolAnswers);
    var known := s.pool.nonces.Keys;
    assert [TO_SELF][..1] == [TO_SELF] && [TO_SELF][..0] == [] && [TO_SELF][1..] == [];
    assert Estimate(known, [TO_SELF]) == 2;
    FittingIsUnique(known, [TO_SELF], 6, CountFitting(known, [TO_SELF], 6, 0), 1);
  }

  /** The mempool proposes the transaction in a mini-block of its own. */
  lemma ProposesToSelf()
    ensures Play(FIRST, PROPOSE) == PROPOSED
  {
    hide Next, Play;
    var a, b := [Submit(TO_SELF), PoolTakes], [Tick, PoolTakes];
    var c, d := [WatcherAnswers, PoolAnswers], [ProposerSends];
    Admitted();
    Asks();
    Answers();
    PlayConcat(FIRST, a, b);
    PlayConcat(FIRST, a + b, c);
    PlayConcat(FIRST, a + b + c, d);
    assert PROPOSE == a + b + c + d;
    Sends();
  }

  lemma Sends()
    ensures Play(ADMITTED.(phase := Answered([], [TO_SELF]), pool := FIRST.pool), [ProposerSends]) == PROPOSED
  {
    PlayTwo(ADMITTED.(phase := Answered([], [TO_SELF]), pool := FIRST.pool), ProposerSends, Tick);
    assert FIRST.toKeeper + [MiniBlock([], [TO_SELF])] == [MiniBlock([], [TO_SELF])];
  }

  const EXECUTED: ExecutedOp := ExecutedTx(TO_SELF, Success(TransferOp(TO_SELF.transfer, 0, 0), 0))
  const SEALED: Commit := Commit(Block(1, AFTER, 0, [EXECUTED], (0, 0), 6), [], [Transaction(TO_SELF)])

  lemma ExecutesToSelf()
    ensures ExecuteTx(BASE_STATE, TO_SELF) == Done(Executed(AFTER, [], EXECUTED.result.op))
  {
    var t := TO_SELF.transfer;
    var account := BASE_STATE.accounts[0];
    assert BASE_STATE.accounts[0 := account.(nonce := 1)] == AFTER.accounts;
    assert BASE_STATE.index[7 := 0] == AFTER.index;
    assert Authorize(BASE_STATE, 7, 0, Some(1)) == Done(0);
  }

  /** Executing the mini-block and sealing gives one block, with the transfer and without updates. */
  lemma KeeperSeals()
    ensures var k1 := Accept(FIRST_KEEPER, [], [TO_SELF]);
            var k2 := KeeperStep(k1);
            var k3 := KeeperStep(k2);
            !k3.busy && !k3.halted && Seal(k3).commits == [SEALED]
  {
    hide ExecuteTx;
    ExecutesToSelf();
    var k1 := Accept(FIRST_KEEPER, [], [TO_SELF]);
    var k2 := KeeperStep(k1);
    assert k2.state == AFTER && k2.pending.success == [EXECUTED] && k2.pending.items == [Transaction(TO_SELF)];
    assert k2.txs == [] && k2.busy && !k2.halted && k2.commits == [];
    var k3 := KeeperStep(k2);
    assert k3.pending.success == [EXECUTED] && k3.pending.failed == [] && !k3.busy && !k3.halted;
    assert [EXECUTED][..0] == [] && [EXECUTED] + [] == [EXECUTED];
    assert ChunksUsed([EXECUTED]) == 2;
  }

  const EVENTS: seq<Event> := PROPOSE + ([KeeperTakes, KeeperTurns] + [KeeperTurns, AskSeal] + [KeeperTakes])

  lemma KeeperHandles()
    ensures Play(PROPOSED, [KeeperTakes, KeeperTurns] + [KeeperTurns, AskSeal] + [KeeperTakes]).keeper.commits ==
            [SEALED]
  {
    hide KeeperStep, Seal, Accept;
    KeeperSeals();
    var k1 := Accept(FIRST_KEEPER, [], [TO_SELF]);
    var a, b, c := [KeeperTakes, KeeperTurns], [KeeperTurns, AskSeal], [KeeperTakes];
    PlayConcat(PROPOSED, a, b);
    PlayConcat(PROPOSED, a + b, c);
    PlayTwo(PROPOSED, KeeperTakes, KeeperTurns);
    var s2 := Play(PROPOSED, a);
    assert s2.keeper == KeeperStep(k1) && s2.toKeeper == [];
    PlayTwo(s2, KeeperTurns, AskSeal);
    var s4 := Play(s2, b);
    assert s4.keeper == KeeperStep(KeeperStep(k1)) && s4.toKeeper == [SealBlock];
    PlayTwo(s4, KeeperTakes, Tick);
  }

  /** One self-transfer, proposed, executed and sealed: the committer drops its block although the block changes the
      ledger, so what is published, which is nothing, does not rebuild it. */
  lemma SelfTransferIsDropped()
    ensures Starts(FIRST) && TypedInputs(FIRST, EVENTS)
    ensures var k := Play(FIRST, EVENTS).keeper;
            && k.commits == [SEALED] && TypedChain(k) && Dropped(SEALED) && SEALED.block.root != FIRST.keeper.state
            && RestorePublished(Tree(FIRST.keeper.state, 1, 0), Published(k.commits[..1]), 0, [6]).Done?
            && RestorePublished(Tree(FIRST.keeper.state, 1, 0), Published(k.commits[..1]), 0, [6]).value.state !=
               SEALED.block.root
  {
    hide Play, Starts, RestorePublished, Published, Dropped, TypedItem;
    FirstStarts();
    ProposesToSelf();
    KeeperHandles();
    PlayConcat(FIRST, PROPOSE, [KeeperTakes, KeeperTurns] + [KeeperTurns, AskSeal] + [KeeperTakes]);
    assert [SEALED][..1] == [SEALED];
    NothingPublished();
    ToSelfIsTyped();
  }

  lemma NothingPublished()
    ensures Dropped(SEALED) && Published([SEALED]) == [] && SEALED.block.root != FIRST.keeper.state
    ensures RestorePublished(Tree(FIRST.keeper.state, 1, 0), [], 0, [6]) == Done(Tree(FIRST.keeper.state, 1, 0))
  {
    assert SEALED.block.root.accounts[0].nonce == 1 && FIRST.keeper.state.accounts[0].nonce == 0;
    assert [SEALED][..0] == [];
  }

  lemma ToSelfIsTyped()
    ensures TypedItem(Transaction(TO_SELF))
  {
    assert Pow(256, 1) == 256 && Pow(256, 0) == 1;
    assert Pow(256, TOKEN) == 65536;
    PowMono(256, 1, ADDRESS);
  }
}
