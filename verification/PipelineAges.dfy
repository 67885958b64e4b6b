/** How long an executed operation can wait for its block to be sealed, in every interleaving. */
module PipelineAges {
  import opened Ledger
  import opened Blocks
  import opened Keeper
  import opened KeeperProgress
  import opened KeeperBudget
  import opened Pipeline
  import opened PipelineInv
  import opened PipelineRuns

  /** The keeper comes to the end of a mini-block. */
  predicate Ends(s: System, e: Event) {
    s.keeper.busy && !Next(s, e).keeper.busy
  }

  function Ended(s: System, events: seq<Event>): nat {
    if events == [] then 0 else
    var n := |events| - 1;
    Ended(s, events[..n]) + if Ends(Play(s, events[..n]), events[n]) then 1 else 0
  }

  /** A pending block is never too old, and between mini-blocks one with operations has aged. */
  predicate AgeInv(k: Keeper) {
    && k.pending.iteration <= MAX_ITERATIONS && (k.pending.success == [] ==> k.pending.iteration == 0)
    && (k.busy || Aged(k))
  }

  /** From `k` on, `ended` mini-blocks came to their end. */
  ghost predicate Waits(k: Keeper, next: Keeper, ended: nat) {
    && Grows(k, next)
    && (|next.commits| == |k.commits| && k.pending.success != [] ==>
          next.pending.iteration == k.pending.iteration + ended)
  }

  lemma HaltChangesNothing(k: Keeper)
    requires Running(k) && Queue(k) != [] && KeeperStep(k).halted
    ensures var next := KeeperStep(k); next.pending == k.pending && next.commits == k.commits && next.busy
  {
    hide ChunksUsed, FirstFit, ExecutePriority, ExecuteTx;
  }

  lemma StepAges(k: Keeper, k0: Keeper)
    requires KeeperInv(k, k0) && AgeInv(k)
    ensures var next := KeeperStep(k);
            AgeInv(next) && Waits(k, next, if k.busy && !next.busy then 1 else 0)
  {
    hide KeeperInv, KeeperStep, Finish;
    if !Running(k) {
      StepWaits(k);
    } else if Queue(k) == [] {
      StepIsFinish(k);
      FinishAges(k, k0);
    } else if KeeperStep(k).halted {
      HaltChangesNothing(k);
    } else {
      StepGrows(k, k0);
      StillBusy(k, k0);
    }
  }

  lemma SealAges(k: Keeper, k0: Keeper)
    requires KeeperInv(k, k0)
    ensures AgeInv(Seal(k)) && Waits(k, Seal(k), 0) && Seal(k).busy == k.busy
  {
    hide KeeperInv, Seal, ChunksUsed;
    SealIsSome(k, k0);
    SealKeepsInv(k, k0);
    SealGrows(k);
    SealLeavesQueues(k);
  }

  lemma NextAges(s: System, s0: System, e: Event)
    requires SystemInv(s, s0) && AgeInv(s.keeper)
    ensures AgeInv(Next(s, e).keeper) && Waits(s.keeper, Next(s, e).keeper, if Ends(s, e) then 1 else 0)
  {
    hide KeeperInv, SerialInv, TxsInv, LogInv, SpaceInv, RefusedInv, Starts, PoolAnswer, KeeperStep, Seal;
    match e
    case PoolTakes => if s.inbox != [] { PoolTakeKeepsKeeper(s); }
    case PoolAnswers => if s.phase.Selected? { PoolAnswerMoves(s); }
    case KeeperTakes => SealAges(s.keeper, s0.keeper);
    case KeeperTurns => StepAges(s.keeper, s0.keeper);
    case _ =>
  }

  lemma {:induction false} EveryStateAges(s0: System, events: seq<Event>)
    requires Starts(s0)
    ensures AgeInv(Play(s0, events).keeper)
  {
    if events != [] {
      hide Starts, Next, AgeInv;
      EveryStateAges(s0, events[..|events| - 1]);
      EveryInterleaving(s0, events[..|events| - 1]);
      NextAges(Play(s0, events[..|events| - 1]), s0, events[|events| - 1]);
    }
  }

  lemma WaitsMore(a: Keeper, b: Keeper, c: Keeper, m: nat, n: nat)
    requires Waits(a, b, m) && Waits(b, c, n)
    ensures Waits(a, c, m + n)
  {
    GrowsTransitive(a, b, c);
    if |c.commits| == |a.commits| && a.pending.success != [] {
      assert |b.commits| == |a.commits| && b.pending.success != [];
    }
  }

  lemma NothingMore(s: System)
    ensures Ended(s, []) == 0 && Waits(s.keeper, s.keeper, 0)
  {
  }

  lemma OneMore(s0: System, events: seq<Event>, more: seq<Event>)
    requires more != []
    ensures var n := |more| - 1;
            var s, before := Play(s0, events), Play(s0, events + more[..n]);
            && Play(s0, events + more) == Next(before, more[n])
            && Ended(s, more) == Ended(s, more[..n]) + if Ends(before, more[n]) then 1 else 0
  {
    hide Next, Ends;
    var n := |more| - 1;
    assert (events + more)[..|events + more| - 1] == events + more[..n];
    PlayConcat(s0, events, more[..n]);
  }

  lemma {:induction false} RunWaits(s0: System, events: seq<Event>, more: seq<Event>)
    requires Starts(s0)
    ensures Waits(Play(s0, events).keeper, Play(s0, events + more).keeper, Ended(Play(s0, events), more))
  {
    hide Starts, Next, AgeInv, Waits, Ends, Play, Ended, SystemInv;
    if more == [] {
      assert events + more == events;
      NothingMore(Play(s0, events));
    } else {
      var n := |more| - 1;
      var before := Play(s0, events + more[..n]);
      OneMore(s0, events, more);
      RunWaits(s0, events, more[..n]);
      EveryInterleaving(s0, events + more[..n]);
      EveryStateAges(s0, events + more[..n]);
      NextAges(before, s0, more[n]);
      WaitsMore(Play(s0, events).keeper, before.keeper, Next(before, more[n]).keeper,
                Ended(Play(s0, events), more[..n]), if Ends(before, more[n]) then 1 else 0);
    }
  }

  /** In every interleaving: once 50 mini-blocks more have ended, not counting one under way, every operation that was
      waiting is in the sealed block that was pending then. */
  lemma EveryOperationSealedWithinFifty(s0: System, events: seq<Event>, more: seq<Event>)
    requires Starts(s0) && Play(s0, events).keeper.pending.success != []
    requires var s := Play(s0, events); Ended(s, more) >= MAX_ITERATIONS + if s.keeper.busy then 1 else 0
    ensures var k, end := Play(s0, events).keeper, Play(s0, events + more).keeper;
            && |end.commits| > |k.commits|
            && k.pending.success <= end.commits[|k.commits|].block.transactions
  {
    hide Play, Starts, Ended;
    EveryStateAges(s0, events);
    EveryStateAges(s0, events + more);
    RunWaits(s0, events, more);
  }
}
