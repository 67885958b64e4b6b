/** What the mempool knows, in every interleaving: the ledger after some of the committed blocks, but for nonces spent
    by self-transfers. */
module PipelineHears {
  import opened Types
  import opened Ledger
  import opened LedgerRuns
  import opened EthWatch
  import opened Mempool
  import opened MempoolKnowledge
  import opened Keeper
  import opened KeeperBlocks
  import opened Pipeline
  import opened PipelineInv
  import opened PipelineRuns
  import N = Nonces
  import R = Replay

  function UpdateIn(message: Message): seq<Updates> {
    if message.UpdateNonces? then [message.updates] else []
  }

  /** What the committer tells the mempool of a block. */
  function SentIn(c: Commit): seq<Updates> {
    if Dropped(c) then [] else [c.updates]
  }

  /** The mempool has heard the first `m` sealed blocks; what it was told of the later ones is still in its inbox. */
  ghost predicate HeardUpTo(s: System, m: nat) {
    && m <= s.delivered <= |s.keeper.commits|
    && s.heard == SealedUpdates(s.keeper.commits[..m])
    && Gather(UpdateIn, s.inbox) == Gather(SentIn, s.keeper.commits[m..s.delivered])
  }

  lemma SealedUpdatesMore(commits: seq<Commit>, m: nat)
    requires m < |commits|
    ensures SealedUpdates(commits[..m + 1]) == SealedUpdates(commits[..m]) + commits[m].updates
  {
    assert commits[..m + 1][..m] == commits[..m];
  }

  /** The first update in the inbox is the first block that is not dropped. */
  lemma {:induction false} NextSent(commits: seq<Commit>, m: nat, d: nat) returns (j: nat)
    requires m <= d <= |commits| && Gather(SentIn, commits[m..d]) != []
    ensures m <= j < d && Gather(SentIn, commits[m..d])[0] == commits[j].updates
    ensures Gather(SentIn, commits[m..d])[1..] == Gather(SentIn, commits[j + 1..d])
    ensures SealedUpdates(commits[..j + 1]) == SealedUpdates(commits[..m]) + commits[j].updates
    decreases d - m
  {
    hide SealedUpdates;
    GatherFirst(SentIn, commits[m..d]);
    assert commits[m..d][1..] == commits[m + 1..d];
    SealedUpdatesMore(commits, m);
    if Dropped(commits[m]) {
      assert Gather(SentIn, commits[m..d]) == Gather(SentIn, commits[m + 1..d]);
      j := NextSent(commits, m + 1, d);
    } else {
      j := m;
    }
  }

  lemma {:induction false} NothingSentBetween(commits: seq<Commit>, m: nat, d: nat)
    requires m <= d <= |commits| && Gather(SentIn, commits[m..d]) == []
    ensures SealedUpdates(commits[..d]) == SealedUpdates(commits[..m])
    decreases d - m
  {
    hide SealedUpdates;
    if m < d {
      GatherFirst(SentIn, commits[m..d]);
      assert commits[m..d][1..] == commits[m + 1..d];
      SealedUpdatesMore(commits, m);
      NothingSentBetween(commits, m + 1, d);
    }
  }

  lemma InboxMore(s: System, m: nat, message: Message)
    requires HeardUpTo(s, m) && !message.UpdateNonces?
    ensures Gather(UpdateIn, s.inbox + [message]) == Gather(SentIn, s.keeper.commits[m..s.delivered])
  {
    hide Gather, SealedUpdates;
    GatherMore(UpdateIn, s.inbox, message);
    assert Gather(UpdateIn, s.inbox) + [] == Gather(UpdateIn, s.inbox);
  }

  lemma PoolTakeHears(s: System, m: nat) returns (j: nat)
    requires HeardUpTo(s, m) && s.inbox != []
    ensures HeardUpTo(PoolTake(s), j)
  {
    hide Gather, SealedUpdates, HearAll, Admits, Dropped;
    GatherFirst(UpdateIn, s.inbox);
    var rest := Gather(UpdateIn, s.inbox[1..]);
    if s.inbox[0].UpdateNonces? {
      var sent := Gather(SentIn, s.keeper.commits[m..s.delivered]);
      assert sent[0] == s.inbox[0].updates && sent[1..] == rest;
      j := NextSent(s.keeper.commits, m, s.delivered);
      assert PoolTake(s).heard == SealedUpdates(s.keeper.commits[..j + 1]);
      j := j + 1;
    } else {
      assert [] + rest == rest;
      j := m;
    }
  }

  lemma KeeperMovesHeard(s: System, m: nat, next: Keeper)
    requires HeardUpTo(s, m) && SameHistory(s.keeper, next)
    ensures HeardUpTo(s.(keeper := next), m)
  {
    hide Gather, SealedUpdates;
    assert next.commits[..m] == s.keeper.commits[..m];
    assert next.commits[m..s.delivered] == s.keeper.commits[m..s.delivered];
  }

  lemma CommitterTells(s: System, m: nat)
    requires HeardUpTo(s, m) && s.delivered < |s.keeper.commits|
    ensures HeardUpTo(Next(s, CommitterTakes), m)
  {
    hide Gather, SealedUpdates, Dropped;
    var commits, d := s.keeper.commits, s.delivered;
    assert commits[m..d + 1] == commits[m..d] + [commits[d]];
    GatherMore(SentIn, commits[m..d], commits[d]);
    GatherMore(UpdateIn, s.inbox, UpdateNonces(commits[d].updates));
    assert s.inbox + [] == s.inbox && Gather(UpdateIn, s.inbox) + [] == Gather(UpdateIn, s.inbox);
  }

  lemma NextHears(s: System, e: Event, m: nat) returns (j: nat)
    requires HeardUpTo(s, m)
    ensures HeardUpTo(Next(s, e), j)
  {
    hide Gather, SealedUpdates, PoolTake, PoolAnswer, KeeperStep, Seal, Accept, Dropped;
    j := m;
    match e
    case Submit(tx) => InboxMore(s, m, NewTx(tx));
    case Tick => InboxMore(s, m, GetBlock(s.counter));
    case PoolTakes => if s.inbox != [] && !s.phase.Selecting? && !s.phase.Selected? { j := PoolTakeHears(s, m); }
    case PoolAnswers => if s.phase.Selected? { PoolAnswerKeepsHeard(s); }
    case KeeperTakes =>
      if s.toKeeper != [] && !s.keeper.busy && !s.keeper.halted {
        SealHistory(s.keeper);
        KeeperMovesHeard(s, m, Seal(s.keeper));
        KeeperTakeKeepsHeard(s);
      }
    case KeeperTurns =>
      StepHistory(s.keeper);
      KeeperMovesHeard(s, m, KeeperStep(s.keeper));
    case CommitterTakes => if s.delivered < |s.keeper.commits| { CommitterTells(s, m); }
    case _ =>
  }

  lemma PoolAnswerKeepsHeard(s: System)
    requires s.phase.Selected?
    ensures var next := PoolAnswer(s);
            next.inbox == s.inbox && next.heard == s.heard && next.keeper == s.keeper && next.delivered == s.delivered
  {
    hide CountFitting;
  }

  lemma KeeperTakeKeepsHeard(s: System)
    requires s.toKeeper != []
    ensures var next := KeeperTake(s);
            && next.inbox == s.inbox && next.heard == s.heard && next.delivered == s.delivered
            && (next.keeper.commits == s.keeper.commits || next.keeper == Seal(s.keeper))
  {
    hide Seal;
  }

  lemma {:induction false} AlwaysHeardSome(s0: System, events: seq<Event>) returns (m: nat)
    requires Starts(s0)
    ensures HeardUpTo(Play(s0, events), m)
  {
    hide HeardUpTo, Next;
    if events == [] {
      m := 0;
      StartHeard(s0);
    } else {
      hide Starts;
      var before := AlwaysHeardSome(s0, events[..|events| - 1]);
      m := NextHears(Play(s0, events[..|events| - 1]), events[|events| - 1], before);
    }
  }

  lemma StartHeard(s: System)
    requires Starts(s)
    ensures HeardUpTo(s, 0)
  {
    assert s.keeper.commits == [] && s.keeper.commits[0..0] == [] && s.keeper.commits[..0] == [];
  }

  /** With nothing on its way, the mempool has heard all that was delivered. */
  lemma HeardAll(s: System, m: nat)
    requires HeardUpTo(s, m) && Gather(UpdateIn, s.inbox) == []
    ensures HeardUpTo(s, s.delivered)
  {
    hide Gather, SealedUpdates, Dropped;
    var commits, d := s.keeper.commits, s.delivered;
    NothingSentBetween(commits, m, d);
    assert commits[d..d] == [];
    assert Gather(SentIn, []) == [] by { GatherNothing(); }
  }

  lemma GatherNothing()
    ensures Gather(SentIn, []) == []
  {
  }

  // ---------- What it knows ----------

  ghost predicate KnowsBlocks(s: System, s0: System, m: nat) {
    && HeardUpTo(s, m)
    && LearntFrom(s.pool, BaseAt(s0.keeper, s.keeper.commits, m),
                  R.Stale(RunAll(s0.keeper.state, Taken(s.keeper.commits[..m])).done))
  }

  lemma {:induction false} ChainUpTo(commits: seq<Commit>, k0: Keeper, m: nat)
    requires ChainOk(commits, k0) && m <= |commits|
    ensures ChainOk(commits[..m], k0)
  {
    if m == |commits| {
      assert commits[..m] == commits;
    } else {
      hide ChainOk;
      ChainPrefix(commits, k0);
      assert commits[..|commits| - 1][..m] == commits[..m];
      ChainUpTo(commits[..|commits| - 1], k0, m);
    }
  }

  lemma LogOfBlocks(k: Keeper, k0: Keeper, m: nat)
    requires KeeperInv(k, k0) && m <= |k.commits|
    ensures var run := RunAll(k0.state, Taken(k.commits[..m]));
            Inv(k0.state) && SealedUpdates(k.commits[..m]) == R.Log(run.done) && run.state == BaseAt(k0, k.commits, m)
  {
    hide RunAll, Inv, PendingOk, CommitOk, Records, Taken, SealedUpdates;
    ChainUpTo(k.commits, k0, m);
    SealedMirrors(k.commits[..m], k0);
    assert BaseAt(k0, k.commits[..m], m) == BaseAt(k0, k.commits, m);
  }

  lemma StartKnows(s: System)
    requires Starts(s)
    ensures Knows(s.pool, s.keeper.state.accounts)
  {
  }

  lemma HeardIsKnown(s: System, s0: System, m: nat)
    requires SystemInv(s, s0) && HeardUpTo(s, m)
    ensures KnowsBlocks(s, s0, m)
  {
    hide Starts, KeeperInv, SerialInv, TxsInv, SpaceInv, RefusedInv, Gather, HearAll, RunAll, Inv, Knows, R.Stale,
         R.Log, SealedUpdates, Taken;
    StartKnows(s0);
    LogOfBlocks(s.keeper, s0.keeper, m);
    KnowsLedger(s0.pool, s0.keeper.state, Taken(s.keeper.commits[..m]));
    var run := RunAll(s0.keeper.state, Taken(s.keeper.commits[..m]));
    QueueIsNoKnowledge(HearAll(s0.pool, s.heard), s.pool.ready, run.state, R.Stale(run.done));
  }

  lemma QueueIsNoKnowledge(pool: Pool, ready: seq<Tx>, s: State, stale: set<AccountId>)
    requires LearntFrom(pool, s, stale)
    ensures LearntFrom(pool.(ready := ready), s, stale)
  {
  }

  /** In every interleaving the mempool knows exactly the accounts of the ledger after the first so many sealed blocks;
      its nonce of an account is the ledger's there, or lower if the account was last changed by a self-transfer. Once
      nothing is on its way to it, these are all the blocks the committer has delivered. */
  lemma MempoolKnowsBlocks(s0: System, events: seq<Event>)
    requires Starts(s0)
    ensures exists m: nat :: KnowsBlocks(Play(s0, events), s0, m)
    ensures var s := Play(s0, events); Gather(UpdateIn, s.inbox) == [] ==> KnowsBlocks(s, s0, s.delivered)
  {
    hide Play, Starts, HeardUpTo, KnowsBlocks, SystemInv, Gather;
    var s := Play(s0, events);
    EveryInterleaving(s0, events);
    var m := AlwaysHeardSome(s0, events);
    HeardIsKnown(s, s0, m);
    if Gather(UpdateIn, s.inbox) == [] {
      HeardAll(s, m);
      HeardIsKnown(s, s0, s.delivered);
    }
  }

  // ---------- What it admits and what it proposes ----------

  /** The next transaction is admitted exactly when its nonce is not below the ledger's after the blocks heard of; for a
      sender last changed there by a self-transfer the mempool admits the nonce spent last, too. */
  lemma AdmitsExactly(s0: System, events: seq<Event>, m: nat, tx: Tx)
    requires Starts(s0) && KnowsBlocks(Play(s0, events), s0, m)
    requires var s := Play(s0, events);
             s.inbox != [] && s.inbox[0] == NewTx(tx) && !s.phase.Selecting? && !s.phase.Selected?
    ensures var s, next := Play(s0, events), Next(Play(s0, events), PoolTakes);
            var base := BaseAt(s0.keeper, s.keeper.commits, m);
            var stale := R.Stale(RunAll(s0.keeper.state, Taken(s.keeper.commits[..m])).done);
            var behind := tx.Sender() in base.index && base.index[tx.Sender()] in stale;
            && (tx.Nonce() >= N.NonceOf(base, tx.Sender()) ==>
                  next.admitted == s.admitted + [tx] && next.refused == s.refused)
            && (!behind && tx.Nonce() < N.NonceOf(base, tx.Sender()) ==>
                  next.refused == s.refused + [tx] && next.admitted == s.admitted)
            && (behind && tx.Nonce() + 1 == N.NonceOf(base, tx.Sender()) ==> next.admitted == s.admitted + [tx])
  {
    hide Play, Starts, HeardUpTo, RunAll, Taken, R.Stale, HearAll;
  }

  /** A proposal takes the selected operations and, from the front of the queue, all the transactions that the space
      they leave in the largest block has room for. */
  lemma ProposesAllThatFits(s0: System, events: seq<Event>)
    requires Starts(s0) && Play(s0, events).phase.Selected?
    ensures var s, next := Play(s0, events), Next(Play(s0, events), PoolAnswers);
            && next.phase.Answered? && next.phase.ops == s.phase.ops
            && ChunksOf(s.phase.ops) <= Max(s.keeper.sizes)
            && next.phase.txs + next.pool.ready == s.pool.ready
            && Fitting(s.pool.nonces.Keys, s.pool.ready, Max(s.keeper.sizes) - ChunksOf(s.phase.ops), |next.phase.txs|)
  {
    hide Play, Starts, KeeperInv, SerialInv, TxsInv, LogInv, RefusedInv, ChunksOf, Affordable;
    EveryInterleaving(s0, events);
    AnswersAllThatFits(Play(s0, events));
  }

  lemma AnswersAllThatFits(s: System)
    requires s.phase.Selected? && ChunksOf(s.phase.ops) <= Max(s.keeper.sizes)
    ensures var next := PoolAnswer(s);
            && next.phase.Answered? && next.phase.ops == s.phase.ops
            && next.phase.txs + next.pool.ready == s.pool.ready
            && Fitting(s.pool.nonces.Keys, s.pool.ready, Max(s.keeper.sizes) - ChunksOf(s.phase.ops), |next.phase.txs|)
  {
    hide ChunksOf;
  }
}
