/** When a block is sealed, in every interleaving: on request, for lack of room, or for age, and never otherwise. */
module PipelineOpen {
  import opened Types
  import opened Ledger
  import opened Blocks
  import opened Keeper
  import opened KeeperProgress
  import opened KeeperBudget
  import opened KeeperOpen
  import opened Pipeline
  import opened PipelineInv
  import opened PipelineRuns
  import opened PipelineAges

  /** The keeper is asked to seal, or is at a turn at which it must. */
  predicate SealsNow(s: System, e: Event) {
    match e
    case KeeperTakes => s.toKeeper != [] && !s.keeper.busy && !s.keeper.halted && s.toKeeper[0].SealBlock?
    case KeeperTurns => Running(s.keeper) && MustSeal(s.keeper)
    case _ => false
  }

  lemma SealAddsOne(k: Keeper, k0: Keeper)
    requires KeeperInv(k, k0)
    ensures |Seal(k).commits| == |k.commits| + 1
  {
    SealIsSome(k, k0);
    hide KeeperInv;
    SealOnce(k);
  }

  lemma AcceptSealsNothing(k: Keeper, priority: seq<PriorityOp>, txs: seq<Tx>)
    ensures Accept(k, priority, txs).commits == k.commits
  {
  }

  /** In every state the pipeline reaches, a step seals exactly one block when the keeper is asked to or must, and none
      otherwise. */
  lemma SealsExactly(s0: System, events: seq<Event>, e: Event)
    requires Starts(s0)
    ensures var s := Play(s0, events);
            && |Next(s, e).keeper.commits| == |s.keeper.commits| + (if SealsNow(s, e) then 1 else 0)
            && (!SealsNow(s, e) ==> Next(s, e).keeper.commits == s.keeper.commits)
  {
    hide Play, Starts, KeeperInv, SerialInv, TxsInv, LogInv, SpaceInv, RefusedInv, PoolTake, PoolAnswer, KeeperStep,
         Seal, Accept, MustSeal, Dropped;
    EveryInterleaving(s0, events);
    var s := Play(s0, events);
    match e
    case PoolTakes => if s.inbox != [] { PoolTakeKeepsKeeper(s); }
    case PoolAnswers => if s.phase.Selected? { PoolAnswerMoves(s); }
    case KeeperTakes =>
      if s.toKeeper != [] {
        SealAddsOne(s.keeper, s0.keeper);
        AcceptSealsNothing(s.keeper, OpsIn(s.toKeeper[0]), TxsIn(s.toKeeper[0]));
      }
    case KeeperTurns =>
      if Running(s.keeper) {
        TurnSealsExactly(s.keeper, s0.keeper);
      } else {
        StepWaits(s.keeper);
      }
    case _ =>
  }

  // ---------- As long as there is room ----------

  predicate NoSealAsked(s: System) {
    forall i | 0 <= i < |s.toKeeper| :: s.toKeeper[i].MiniBlock?
  }

  /** What the keeper has to execute from `s` on, up to `t`: its queue and what it accepted since. */
  function Load(s: System, t: System): seq<Item>
    requires s.keeper.accepted <= t.keeper.accepted
  {
    Queue(s.keeper) + t.keeper.accepted[|s.keeper.accepted|..]
  }

  /** Since `s`, while `ended` mini-blocks came to their end, nothing was sealed and no more space used than asked. */
  ghost predicate StillOpen(s: System, t: System, ended: nat) {
    && s.keeper.accepted <= t.keeper.accepted
    && t.keeper.commits == s.keeper.commits
    && s.keeper.state.index.Keys <= t.keeper.state.index.Keys
    && NoSealAsked(t)
    && t.keeper.pending.iteration <= s.keeper.pending.iteration + ended
    && (!t.keeper.halted ==>
          Spare(t.keeper) + Demand(s.keeper.state.index.Keys, Load(s, t)) >= s.keeper.pending.chunksLeft)
  }

  lemma NothingYet(s: System)
    requires NoSealAsked(s)
    ensures StillOpen(s, s, 0)
  {
    assert s.keeper.accepted[|s.keeper.accepted|..] == [];
    assert Load(s, s) == Queue(s.keeper);
  }

  lemma TurnStillOpen(s: System, t: System, s0: System, ended: nat)
    requires SystemInv(t, s0) && StillOpen(s, t, ended)
    requires Demand(s.keeper.state.index.Keys, Load(s, t)) <= s.keeper.pending.chunksLeft
    requires s.keeper.pending.iteration + ended + (if Ends(t, KeeperTurns) then 1 else 0) <= MAX_ITERATIONS
    ensures StillOpen(s, Next(t, KeeperTurns), ended + if Ends(t, KeeperTurns) then 1 else 0)
  {
    hide Starts, KeeperInv, SerialInv, TxsInv, LogInv, SpaceInv, RefusedInv, KeeperStep, Demand, Spare;
    var k, next := t.keeper, KeeperStep(t.keeper);
    if Running(k) {
      StepHistory(k);
      if Queue(k) == [] {
        FinishEnds(k, s0.keeper);
      }
      OpenTurn(k, s0.keeper);
      assert Load(s, Next(t, KeeperTurns)) == Load(s, t);
    } else {
      StepWaits(k);
    }
  }

  lemma FinishEnds(k: Keeper, k0: Keeper)
    requires KeeperInv(k, k0) && Running(k) && Queue(k) == []
    ensures !KeeperStep(k).busy
  {
    StepIsFinish(k);
    FinishIsLast(k, k0);
  }

  lemma FinishIsLast(k: Keeper, k0: Keeper)
    requires KeeperInv(k, k0) && Running(k)
    ensures !Finish(k).busy
  {
    SealIsSome(k, k0);
    hide FirstFit, ChunksUsed, KeeperInv;
  }

  lemma TakeStillOpen(s: System, t: System, s0: System, ended: nat)
    requires SystemInv(t, s0) && StillOpen(s, t, ended)
    ensures StillOpen(s, Next(t, KeeperTakes), ended)
  {
    hide Starts, KeeperInv, SerialInv, TxsInv, LogInv, SpaceInv, RefusedInv, Demand;
    if t.toKeeper != [] && !t.keeper.busy && !t.keeper.halted {
      var k, known := t.keeper, s.keeper.state.index.Keys;
      var request := t.toKeeper[0];
      assert request.MiniBlock?;
      var items := PriorityItems(request.priority) + TxItems(request.txs);
      var next := Next(t, KeeperTakes);
      IdleSpare(k, s0.keeper);
      assert next.keeper.accepted == k.accepted + items;
      assert Load(s, next) == Load(s, t) + items;
      assert Queue(next.keeper) == items;
      DemandConcat(known, Load(s, t), items);
      KnowingMoreCostsLess(known, k.state.index.Keys, items);
    }
  }

  lemma NextStillOpen(s: System, t: System, s0: System, e: Event, ended: nat)
    requires SystemInv(t, s0) && StillOpen(s, t, ended) && !e.AskSeal?
    requires Demand(s.keeper.state.index.Keys, Load(s, t)) <= s.keeper.pending.chunksLeft
    requires s.keeper.pending.iteration + ended + (if Ends(t, e) then 1 else 0) <= MAX_ITERATIONS
    ensures StillOpen(s, Next(t, e), ended + if Ends(t, e) then 1 else 0)
  {
    hide KeeperInv, SerialInv, TxsInv, LogInv, SpaceInv, RefusedInv, Starts, PoolTake, PoolAnswer, KeeperTake,
         KeeperStep, Demand, Spare, Queue, Dropped;
    match e
    case PoolTakes => if t.inbox != [] { PoolTakeKeepsKeeper(t); }
    case PoolAnswers => if t.phase.Selected? { PoolAnswerMoves(t); }
    case KeeperTakes =>
      TakeStillOpen(s, t, s0, ended);
      TakeEndsNothing(t);
    case KeeperTurns => TurnStillOpen(s, t, s0, ended);
    case _ =>
  }

  lemma TakeEndsNothing(t: System)
    ensures !Ends(t, KeeperTakes)
  {
    hide Seal;
    SealLeavesQueues(t.keeper);
  }

  predicate NoneAsksSeal(events: seq<Event>) {
    forall i | 0 <= i < |events| :: !events[i].AskSeal?
  }

  lemma AcceptedGrows(s: System, e: Event)
    ensures s.keeper.accepted <= Next(s, e).keeper.accepted
  {
    hide PoolTake, PoolAnswer, KeeperStep, Seal, Dropped;
    StepHistory(s.keeper);
    SealHistory(s.keeper);
    if e.PoolTakes? && s.inbox != [] {
      PoolTakeKeepsKeeper(s);
    } else if e.PoolAnswers? && s.phase.Selected? {
      PoolAnswerMoves(s);
    }
  }

  lemma {:induction false} RunAccepts(s: System, events: seq<Event>)
    ensures s.keeper.accepted <= Play(s, events).keeper.accepted
  {
    if events != [] {
      hide Next;
      RunAccepts(s, events[..|events| - 1]);
      AcceptedGrows(Play(s, events[..|events| - 1]), events[|events| - 1]);
    }
  }

  lemma LoadGrows(s: System, t: System, u: System, known: set<Address>)
    requires s.keeper.accepted <= t.keeper.accepted <= u.keeper.accepted
    ensures Demand(known, Load(s, t)) <= Demand(known, Load(s, u))
  {
    var n := |t.keeper.accepted|;
    var rest := u.keeper.accepted[n..];
    assert Load(s, u) == Load(s, t) + rest;
    DemandConcat(known, Load(s, t), rest);
  }

  /** Over any further steps in which nobody asks for a seal: if what the keeper has and is given to execute has room
      in the pending block, and the mini-blocks that end do not make it older than 50, it is not sealed. */
  lemma {:induction false} BlockStaysOpen(s0: System, events: seq<Event>, more: seq<Event>)
    requires Starts(s0) && NoSealAsked(Play(s0, events)) && NoneAsksSeal(more)
    requires Play(s0, events).keeper.accepted <= Play(s0, events + more).keeper.accepted
    requires var s, end := Play(s0, events), Play(s0, events + more);
             && Demand(s.keeper.state.index.Keys, Load(s, end)) <= s.keeper.pending.chunksLeft
             && s.keeper.pending.iteration + Ended(s, more) <= MAX_ITERATIONS
    ensures StillOpen(Play(s0, events), Play(s0, events + more), Ended(Play(s0, events), more))
  {
    hide Starts, Next, Ends, Play, Ended, SystemInv, StillOpen, Demand, NoSealAsked, Load;
    var s := Play(s0, events);
    if more == [] {
      assert events + more == events;
      NothingYet(s);
      NothingMore(s);
    } else {
      var n := |more| - 1;
      var before, end := Play(s0, events + more[..n]), Play(s0, events + more);
      OneMore(s0, events, more);
      PlayConcat(s0, events, more[..n]);
      RunAccepts(s, more[..n]);
      AcceptedGrows(before, more[n]);
      LoadGrows(s, before, end, s.keeper.state.index.Keys);
      BlockStaysOpen(s0, events, more[..n]);
      EveryInterleaving(s0, events + more[..n]);
      NextStillOpen(s, before, s0, more[n], Ended(s, more[..n]));
    }
  }
}
