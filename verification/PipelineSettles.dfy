/** The pipeline never gets stuck: from every state it can reach, its own steps lead to one where everything that was
    handed in is in sealed blocks and the mempool has heard of all of them, unless the keeper aborts on the way. */
module PipelineSettles {
  import opened LedgerRuns
  import opened EthWatch
  import opened Mempool
  import opened Keeper
  import opened KeeperProgress
  import opened KeeperBudget
  import opened Pipeline
  import opened PipelineInv
  import opened PipelineRuns
  import opened PipelineTheorems
  import opened PipelineOpen
  import opened PipelineHears

  // ---------- The pipeline's own steps ----------

  /** Nothing new comes in from outside. */
  predicate OwnSteps(events: seq<Event>) {
    forall i | 0 <= i < |events| :: !events[i].Poll? && !events[i].Submit?
  }

  ghost predicate Leads(s: System, more: seq<Event>, t: System) {
    Play(s, more) == t && OwnSteps(more)
  }

  lemma LeadsNowhere(s: System)
    ensures Leads(s, [], s)
  {
  }

  lemma LeadsOn(s: System, e: Event)
    requires !e.Poll? && !e.Submit?
    ensures Leads(s, [e], Next(s, e))
  {
    hide Next;
    assert [e][..0] == [];
    assert Play(s, []) == s && Play(s, [e]) == Next(Play(s, [e][..0]), e);
  }

  lemma LeadsThen(s: System, a: seq<Event>, t: System, b: seq<Event>, u: System)
    requires Leads(s, a, t) && Leads(t, b, u)
    ensures Leads(s, a + b, u)
  {
    hide Play;
    PlayConcat(s, a, b);
  }

  lemma {:induction false} LeadsKeeps(s: System, s0: System, more: seq<Event>, t: System)
    requires SystemInv(s, s0) && Leads(s, more, t)
    ensures SystemInv(t, s0)
  {
    hide SystemInv, Next;
    if more != [] {
      var n := |more| - 1;
      LeadsKeeps(s, s0, more[..n], Play(s, more[..n]));
      NextKeepsInv(Play(s, more[..n]), s0, more[n]);
    }
  }

  // ---------- The keeper works off what it was sent ----------

  lemma RunningFits(s: System, s0: System)
    requires SystemInv(s, s0) && Running(s.keeper)
    ensures AllFit(s.keeper.state, Queue(s.keeper), Max(s.keeper.sizes))
  {
    hide Starts, KeeperInv, SerialInv, TxsInv, LogInv, RefusedInv, Inv, Demand, AllFit, Queue;
    LedgerInv(s.keeper, s0.keeper);
    assert Budget(s.keeper, s.started);
    BudgetFits(s.keeper, s0.keeper, s.started);
    DemandFits(s.keeper.state, Queue(s.keeper), Max(s.keeper.sizes));
  }

  lemma {:induction false} KeeperIterates(s: System, n: nat) returns (more: seq<Event>)
    ensures Leads(s, more, s.(keeper := Iterate(s.keeper, n)))
    decreases n
  {
    hide KeeperStep, Leads;
    if n == 0 {
      more := [];
      LeadsNowhere(s);
    } else {
      var next := Next(s, KeeperTurns);
      LeadsOn(s, KeeperTurns);
      var rest := KeeperIterates(next, n - 1);
      LeadsThen(s, [KeeperTurns], next, rest, s.(keeper := Iterate(s.keeper, n)));
      more := [KeeperTurns] + rest;
    }
  }

  lemma KeeperFinishes(s: System, s0: System) returns (more: seq<Event>, t: System)
    requires SystemInv(s, s0)
    ensures Leads(s, more, t) && t == s.(keeper := t.keeper) && !Running(t.keeper)
  {
    hide SystemInv, Leads, AllFit, Queue, KeeperStep;
    if Running(s.keeper) {
      RunningFits(s, s0);
    }
    DrainIsIterate(s.keeper);
    var n: nat :| Iterate(s.keeper, n) == Drain(s.keeper);
    more := KeeperIterates(s, n);
    t := s.(keeper := Iterate(s.keeper, n));
  }

  /** Only the keeper has moved. */
  predicate KeeperOnly(s: System, t: System) {
    t == s.(keeper := t.keeper, toKeeper := t.toKeeper, started := t.started)
  }

  lemma KeeperTakesOne(s: System)
    requires s.toKeeper != [] && !s.keeper.busy && !s.keeper.halted
    ensures var t := Next(s, KeeperTakes); KeeperOnly(s, t) && t.toKeeper == s.toKeeper[1..]
  {
    hide Accept, Seal;
  }

  lemma {:induction false} KeeperEmpties(s: System, s0: System) returns (more: seq<Event>, t: System)
    requires SystemInv(s, s0)
    ensures Leads(s, more, t) && KeeperOnly(s, t)
    ensures t.keeper.halted || (!t.keeper.busy && t.toKeeper == [])
    decreases |s.toKeeper|
  {
    hide SystemInv, Leads, Next;
    more, t := KeeperFinishes(s, s0);
    if !t.keeper.halted && t.toKeeper != [] {
      var next := Next(t, KeeperTakes);
      LeadsKeeps(s, s0, more, t);
      KeeperTakesOne(t);
      LeadsOn(t, KeeperTakes);
      LeadsThen(s, more, t, [KeeperTakes], next);
      LeadsKeeps(s, s0, more + [KeeperTakes], next);
      var rest, end := KeeperEmpties(next, s0);
      LeadsThen(s, more + [KeeperTakes], next, rest, end);
      more, t := more + [KeeperTakes] + rest, end;
    }
  }

  // ---------- The committer delivers, and the mempool hears ----------

  predicate AllUpdates(inbox: seq<Message>) {
    forall i | 0 <= i < |inbox| :: inbox[i].UpdateNonces?
  }

  lemma CommitterDelivers(s: System)
    requires s.delivered < |s.keeper.commits| && AllUpdates(s.inbox)
    ensures var t := Next(s, CommitterTakes);
            t == s.(delivered := s.delivered + 1, inbox := t.inbox) && AllUpdates(t.inbox)
  {
  }

  lemma {:induction false} DeliversAll(s: System) returns (more: seq<Event>, t: System)
    requires s.delivered <= |s.keeper.commits| && AllUpdates(s.inbox)
    ensures Leads(s, more, t) && t == s.(delivered := |s.keeper.commits|, inbox := t.inbox) && AllUpdates(t.inbox)
    decreases |s.keeper.commits| - s.delivered
  {
    hide Leads, Next, AllUpdates;
    if s.delivered == |s.keeper.commits| {
      more, t := [], s;
      LeadsNowhere(s);
    } else {
      var next := Next(s, CommitterTakes);
      CommitterDelivers(s);
      LeadsOn(s, CommitterTakes);
      var rest, end := DeliversAll(next);
      LeadsThen(s, [CommitterTakes], next, rest, end);
      more, t := [CommitterTakes] + rest, end;
    }
  }

  lemma PoolHearsOne(s: System)
    requires s.inbox != [] && AllUpdates(s.inbox) && s.phase.Resting?
    ensures var t := Next(s, PoolTakes);
            && t == s.(inbox := s.inbox[1..], pool := t.pool, heard := t.heard) && t.pool.ready == s.pool.ready
            && AllUpdates(t.inbox)
  {
    hide HearAll;
    HearingLeavesQueue(s.pool, [], s.inbox[0].updates);
  }

  lemma {:induction false} HearsAll(s: System) returns (more: seq<Event>, t: System)
    requires AllUpdates(s.inbox) && s.phase.Resting?
    ensures Leads(s, more, t)
    ensures t == s.(inbox := [], pool := t.pool, heard := t.heard) && t.pool.ready == s.pool.ready
    decreases |s.inbox|
  {
    hide Leads, Next, AllUpdates;
    if s.inbox == [] {
      more, t := [], s;
      LeadsNowhere(s);
    } else {
      var next := Next(s, PoolTakes);
      PoolHearsOne(s);
      LeadsOn(s, PoolTakes);
      var rest, end := HearsAll(next);
      LeadsThen(s, [PoolTakes], next, rest, end);
      more, t := [PoolTakes] + rest, end;
    }
  }

  /** Everyone waits for something new: nothing is on its way, and every sealed block was delivered and heard of. */
  predicate AtRest(s: System) {
    && s.inbox == [] && s.phase.Resting? && s.toKeeper == [] && !s.keeper.busy && !s.keeper.halted
    && s.delivered == |s.keeper.commits|
  }

  predicate SameQueues(s: System, t: System) {
    && t.watcher == s.watcher && t.counter == s.counter && t.pool.ready == s.pool.ready
    && t.admitted == s.admitted && t.refused == s.refused && t.keeper.sizes == s.keeper.sizes
  }

  lemma DeliveredBound(s: System, s0: System)
    requires SystemInv(s, s0)
    ensures s.delivered <= |s.keeper.commits| && s.keeper.sizes == s0.keeper.sizes
  {
    hide Starts, SerialInv, TxsInv, SpaceInv, RefusedInv, Initial, Inv, ChainOk, PendingOk;
  }

  /** With the mempool done, the keeper works off its requests and the blocks make their way back to the mempool. */
  lemma ComesToRest(s: System, s0: System) returns (more: seq<Event>, t: System)
    requires SystemInv(s, s0) && s.inbox == [] && s.phase.Resting?
    ensures Leads(s, more, t) && SameQueues(s, t) && (t.keeper.halted || AtRest(t))
  {
    hide SystemInv, Leads;
    DeliveredBound(s, s0);
    more, t := KeeperEmpties(s, s0);
    LeadsKeeps(s, s0, more, t);
    DeliveredBound(t, s0);
    if !t.keeper.halted {
      var b, u := DeliversAll(t);
      LeadsThen(s, more, t, b, u);
      var c, v := HearsAll(u);
      LeadsThen(s, more + b, u, c, v);
      more, t := more + b + c, v;
    }
  }

  // ---------- The mempool works off its inbox ----------

  function PhaseRank(phase: Phase): nat {
    if phase.Selecting? then 2 else if phase.Selected? then 1 else 0
  }

  predicate PoolOnly(s: System, t: System) {
    t == s.(inbox := t.inbox, phase := t.phase, pool := t.pool, heard := t.heard, admitted := t.admitted,
            refused := t.refused)
  }

  function PoolEvent(s: System): Event {
    if s.phase.Selecting? then WatcherAnswers else if s.phase.Selected? then PoolAnswers else PoolTakes
  }

  lemma PoolMoves(s: System)
    requires s.inbox != [] || s.phase.Selecting? || s.phase.Selected?
    ensures var t := Next(s, PoolEvent(s));
            && PoolOnly(s, t)
            && (|t.inbox| < |s.inbox| || (t.inbox == s.inbox && PhaseRank(t.phase) < PhaseRank(s.phase)))
  {
    hide HearAll, Admits, CountFitting, Select;
  }

  lemma {:induction false} PoolEmpties(s: System) returns (more: seq<Event>, t: System)
    ensures Leads(s, more, t) && PoolOnly(s, t) && t.inbox == [] && !t.phase.Selecting? && !t.phase.Selected?
    decreases |s.inbox|, PhaseRank(s.phase)
  {
    hide Leads, Next;
    if s.inbox == [] && !s.phase.Selecting? && !s.phase.Selected? {
      more, t := [], s;
      LeadsNowhere(s);
    } else {
      var e := PoolEvent(s);
      PoolMoves(s);
      LeadsOn(s, e);
      var rest, end := PoolEmpties(Next(s, e));
      LeadsThen(s, [e], Next(s, e), rest, end);
      more, t := [e] + rest, end;
    }
  }

  /** A mini-block asked for is on its way to the mempool. */
  lemma NobodyAsked(s: System, s0: System)
    requires SystemInv(s, s0) && s.inbox == []
    ensures !s.phase.Asked?
  {
    hide Starts, KeeperInv, TxsInv, LogInv, SpaceInv, RefusedInv, Serial;
  }

  lemma Settles(s: System, s0: System) returns (more: seq<Event>, t: System)
    requires SystemInv(s, s0)
    ensures Leads(s, more, t) && t.watcher == s.watcher && (t.keeper.halted || AtRest(t))
  {
    hide SystemInv, Leads;
    more, t := PoolEmpties(s);
    LeadsKeeps(s, s0, more, t);
    NobodyAsked(t, s0);
    if t.phase.Answered? {
      var next := Next(t, ProposerSends);
      LeadsOn(t, ProposerSends);
      LeadsThen(s, more, t, [ProposerSends], next);
      more, t := more + [ProposerSends], next;
      LeadsKeeps(s, s0, more, t);
    }
    var rest, end := ComesToRest(t, s0);
    LeadsThen(s, more, t, rest, end);
    more, t := more + rest, end;
  }

  // ---------- One more mini-block ----------

  /** The stored operations from the proposer's counter on. */
  function Waiting(s: System): set<nat> {
    set n | n in s.watcher && n >= s.counter
  }

  function Left(s: System): nat {
    |Waiting(s)| + |s.pool.ready|
  }

  predicate SomethingWaits(s: System) {
    s.pool.ready != [] || s.counter in s.watcher
  }

  /** From rest, one request of the proposer goes all the way to the keeper's door. */
  function Proposed(s: System): System
    requires s.phase.Resting?
  {
    var asked := s.(phase := Selected(Select(s.watcher, s.counter, Max(s.keeper.sizes), [])));
    Next(PoolAnswer(asked), ProposerSends)
  }

  const PROPOSING: seq<Event> := [Tick] + [PoolTakes] + [WatcherAnswers] + [PoolAnswers] + [ProposerSends]

  lemma Proposes(s: System)
    requires AtRest(s)
    ensures Leads(s, PROPOSING, Proposed(s))
  {
    hide Leads, PoolAnswer, Select;
    var a := Next(s, Tick);
    var b := Next(a, PoolTakes);
    var c := Next(b, WatcherAnswers);
    var d := Next(c, PoolAnswers);
    assert s.inbox + [GetBlock(s.counter)] == [GetBlock(s.counter)];
    assert b == s.(phase := Selecting(s.counter));
    PoolAnswerMoves(c);
    LeadsOn(s, Tick);
    LeadsOn(a, PoolTakes);
    LeadsOn(b, WatcherAnswers);
    LeadsOn(c, PoolAnswers);
    LeadsOn(d, ProposerSends);
    LeadsThen(s, [Tick], a, [PoolTakes], b);
    LeadsThen(s, [Tick] + [PoolTakes], b, [WatcherAnswers], c);
    LeadsThen(s, [Tick] + [PoolTakes] + [WatcherAnswers], c, [PoolAnswers], d);
    LeadsThen(s, [Tick] + [PoolTakes] + [WatcherAnswers] + [PoolAnswers], d, [ProposerSends], Proposed(s));
  }

  /** If something waits and every request fits the largest block, the mini-block is not empty. */
  lemma ProposesSomething(s: System)
    requires AtRest(s) && SomethingWaits(s) && Max(s.keeper.sizes) >= 6
    ensures var t := Proposed(s);
            && t.inbox == [] && t.phase.Resting? && t.watcher == s.watcher && t.keeper == s.keeper
            && s.counter <= t.counter && |t.pool.ready| <= |s.pool.ready|
            && (s.counter < t.counter || |t.pool.ready| < |s.pool.ready|)
            && (forall n | s.counter <= n < t.counter :: n in s.watcher)
  {
    var max := Max(s.keeper.sizes);
    var ops := Select(s.watcher, s.counter, max, []);
    forall n | s.counter <= n < s.counter + |ops| ensures n in s.watcher {
      assert Stored(s.watcher, s.counter + (n - s.counter), ops[n - s.counter]);
    }
    PoolAnswerMoves(s.(phase := Selected(ops)));
    if ops == [] {
      assert ChunksOf(ops) == 0;
      TakesFirst(s.pool, max, CountFitting(s.pool.nonces.Keys, s.pool.ready, max, 0));
    }
  }

  lemma TakesFirst(pool: Pool, room: nat, n: nat)
    requires pool.ready != [] && room >= 6 && Fitting(pool.nonces.Keys, pool.ready, room, n)
    ensures n > 0
  {
    assert Estimate(pool.nonces.Keys, pool.ready[..0]) == 0;
  }

  lemma FewerWait(s: System, t: System)
    requires t.watcher == s.watcher && s.counter <= t.counter && |t.pool.ready| <= |s.pool.ready|
    requires s.counter < t.counter || |t.pool.ready| < |s.pool.ready|
    requires forall n | s.counter <= n < t.counter :: n in s.watcher
    ensures Left(t) < Left(s)
  {
    assert Waiting(t) <= Waiting(s);
    SubsetSize(Waiting(t), Waiting(s));
    if s.counter < t.counter {
      assert s.counter in Waiting(s) && s.counter !in Waiting(t);
      SubsetSize(Waiting(t), Waiting(s) - {s.counter});
    }
  }

  lemma {:induction false} SubsetSize(a: set<nat>, b: set<nat>)
    requires a <= b
    ensures |a| <= |b|
  {
    if a != {} {
      var x :| x in a;
      SubsetSize(a - {x}, b - {x});
    }
  }

  /** Mini-block after mini-block until nothing waits. */
  lemma {:induction false} ProposesAll(s: System, s0: System) returns (more: seq<Event>, t: System)
    requires SystemInv(s, s0) && AtRest(s) && Max(s.keeper.sizes) >= 6
    ensures Leads(s, more, t) && t.watcher == s.watcher
    ensures t.keeper.halted || (AtRest(t) && !SomethingWaits(t))
    decreases Left(s)
  {
    hide SystemInv, Leads, Proposed, Left;
    if !SomethingWaits(s) {
      more, t := [], s;
      LeadsNowhere(s);
    } else {
      var sent := Proposed(s);
      Proposes(s);
      ProposesSomething(s);
      LeadsKeeps(s, s0, PROPOSING, sent);
      var a, u := ComesToRest(sent, s0);
      LeadsThen(s, PROPOSING, sent, a, u);
      FewerWait(s, u);
      if u.keeper.halted {
        more, t := PROPOSING + a, u;
      } else {
        LeadsKeeps(sent, s0, a, u);
        var b, v := ProposesAll(u, s0);
        LeadsThen(s, PROPOSING + a, u, b, v);
        more, t := PROPOSING + a + b, v;
      }
    }
  }

  // ---------- The last block ----------

  /** Everything handed in is in sealed blocks, and the mempool knows the ledger after the last of them. */
  ghost predicate AllSealed(s: System, s0: System) {
    && AtRest(s) && !SomethingWaits(s) && s.keeper.pending.items == []
    && s.admitted == Gather(TxIn, Taken(s.keeper.commits))
    && Serial(Gather(PriorityIn, Taken(s.keeper.commits)), s0.keeper.unprocessed)
    && s.counter == s0.keeper.unprocessed + |Gather(PriorityIn, Taken(s.keeper.commits))|
    && KnowsBlocks(s, s0, |s.keeper.commits|)
  }

  lemma SealEmpties(k: Keeper, k0: Keeper)
    requires KeeperInv(k, k0)
    ensures Seal(k).pending.items == [] && Seal(k).halted == k.halted
  {
    SealIsSome(k, k0);
    hide KeeperInv;
  }

  lemma SealsLast(s: System, s0: System) returns (more: seq<Event>, t: System)
    requires SystemInv(s, s0) && AtRest(s) && !SomethingWaits(s)
    ensures Leads(s, more, t) && t.watcher == s.watcher
    ensures AtRest(t) && !SomethingWaits(t) && t.keeper.pending.items == []
  {
    hide Leads, KeeperInv, Starts, SerialInv, TxsInv, LogInv, SpaceInv, RefusedInv, Seal;
    var a := Next(s, AskSeal);
    var b := Next(a, KeeperTakes);
    SealEmpties(s.keeper, s0.keeper);
    SealLeavesQueues(s.keeper);
    SealAddsOne(s.keeper, s0.keeper);
    assert s.toKeeper + [SealBlock] == [SealBlock];
    assert b == s.(keeper := Seal(s.keeper));
    LeadsOn(s, AskSeal);
    LeadsOn(a, KeeperTakes);
    LeadsThen(s, [AskSeal], a, [KeeperTakes], b);
    var c, u := DeliversAll(b);
    LeadsThen(s, [AskSeal] + [KeeperTakes], b, c, u);
    var d, v := HearsAll(u);
    LeadsThen(s, [AskSeal] + [KeeperTakes] + c, u, d, v);
    more, t := [AskSeal] + [KeeperTakes] + c + d, v;
  }

  lemma RestIsAllSealed(s: System, s0: System, m: nat)
    requires SystemInv(s, s0) && AtRest(s) && !SomethingWaits(s) && s.keeper.pending.items == []
    requires HeardUpTo(s, m)
    ensures AllSealed(s, s0)
  {
    hide SystemInv, KnowsBlocks, Serial, HeardUpTo, Gather, Taken;
    RestAccepted(s, s0);
    NothingUpdated();
    HeardAll(s, m);
    HeardIsKnown(s, s0, s.delivered);
  }

  lemma NothingUpdated()
    ensures Gather(UpdateIn, []) == []
  {
  }

  lemma RestAccepted(s: System, s0: System)
    requires SystemInv(s, s0) && AtRest(s) && s.pool.ready == [] && s.keeper.pending.items == []
    ensures s.admitted == Gather(TxIn, Taken(s.keeper.commits))
    ensures Serial(Gather(PriorityIn, Taken(s.keeper.commits)), s0.keeper.unprocessed)
    ensures s.counter == s0.keeper.unprocessed + |Gather(PriorityIn, Taken(s.keeper.commits))|
  {
    hide Starts, KeeperInv, LogInv, SpaceInv, RefusedInv, Gather, Taken, Serial;
    AcceptedPriority(s.keeper, s0.keeper);
    IdleQueues(s.keeper, s0.keeper);
    assert Taken(s.keeper.commits) + [] == Taken(s.keeper.commits);
    NothingGathered();
    var done, txs := Gather(PriorityIn, Taken(s.keeper.commits)), Gather(TxIn, Taken(s.keeper.commits));
    assert done + [] == done && txs + [] + [] + [] == txs && txs + [] == txs;
  }

  lemma IdleQueues(k: Keeper, k0: Keeper)
    requires KeeperInv(k, k0) && !k.busy
    ensures k.priority == [] && k.txs == []
  {
  }

  lemma NothingGathered()
    ensures Gather(OpsIn, []) == [] && Gather(TxsIn, []) == []
  {
  }

  /** From every state the pipeline can reach, if every request fits the largest block, its own steps lead to a state in
      which everything admitted and every operation the watcher can offer is in sealed blocks, in order and once, and
      the mempool has heard of all of them; or to an abort of the keeper. */
  lemma EverythingCanBeSealed(s0: System, events: seq<Event>) returns (more: seq<Event>)
    requires Starts(s0) && Max(s0.keeper.sizes) >= 6
    ensures OwnSteps(more)
    ensures var s, end := Play(s0, events), Play(s0, events + more);
            end.watcher == s.watcher && (end.keeper.halted || AllSealed(end, s0))
  {
    hide SystemInv, Starts, Play, AtRest, SomethingWaits, AllSealed, HeardUpTo;
    var s := Play(s0, events);
    EveryInterleaving(s0, events);
    DeliveredBound(s, s0);
    var t;
    more, t := Settles(s, s0);
    LeadsKeeps(s, s0, more, t);
    DeliveredBound(t, s0);
    if !t.keeper.halted {
      var a, u := ProposesAll(t, s0);
      LeadsThen(s, more, t, a, u);
      more, t := more + a, u;
      LeadsKeeps(s, s0, more, t);
      if !t.keeper.halted {
        var b, v := SealsLast(t, s0);
        LeadsThen(s, more, t, b, v);
        more, t := more + b, v;
        LeadsKeeps(s, s0, more, t);
        PlayConcat(s0, events, more);
        var m := AlwaysHeardSome(s0, events + more);
        RestIsAllSealed(t, s0, m);
      }
    }
    PlayConcat(s0, events, more);
  }

  /** With only smaller blocks no priority operation ever leaves the watcher. */
  lemma {:induction false} StuckWithoutRoom(s0: System, events: seq<Event>)
    requires Starts(s0) && Max(s0.keeper.sizes) < 6
    ensures var s := Play(s0, events); s.counter == s0.counter && Gather(PriorityIn, s.keeper.accepted) == []
  {
    hide Starts, SystemInv, Next, Gather;
    if events == [] {
      StartsEmpty(s0);
    } else {
      var n := |events| - 1;
      var before := Play(s0, events[..n]);
      StuckWithoutRoom(s0, events[..n]);
      EveryInterleaving(s0, events[..n]);
      EveryInterleaving(s0, events);
      StartCounter(s0);
      CounterStays(before, s0, events[n]);
      NothingAccepted(Play(s0, events), s0);
    }
  }

  lemma StartsEmpty(s0: System)
    requires Starts(s0)
    ensures Gather(PriorityIn, s0.keeper.accepted) == []
  {
  }

  lemma StartCounter(s0: System)
    requires Starts(s0)
    ensures s0.counter == s0.keeper.unprocessed
  {
  }

  lemma NothingAccepted(s: System, s0: System)
    requires SystemInv(s, s0) && s.counter == s0.keeper.unprocessed
    ensures Gather(PriorityIn, s.keeper.accepted) == []
  {
    hide Starts, KeeperInv, TxsInv, LogInv, SpaceInv, RefusedInv, Gather;
  }

  lemma CounterStays(s: System, s0: System, e: Event)
    requires SystemInv(s, s0) && Max(s0.keeper.sizes) < 6
    ensures Next(s, e).counter == s.counter
  {
    hide SystemInv, PoolTake, PoolAnswer, KeeperTake, KeeperStep, Dropped;
    if e.ProposerSends? && s.phase.Answered? {
      NothingProposed(s, s0);
    } else if e.PoolTakes? && s.inbox != [] {
      PoolTakeCounter(s);
    } else if e.PoolAnswers? && s.phase.Selected? {
      PoolAnswerMoves(s);
    } else if e.KeeperTakes? && s.toKeeper != [] {
      KeeperTakeCounter(s);
    }
  }

  lemma PoolTakeCounter(s: System)
    requires s.inbox != []
    ensures PoolTake(s).counter == s.counter
  {
  }

  lemma KeeperTakeCounter(s: System)
    requires s.toKeeper != []
    ensures KeeperTake(s).counter == s.counter
  {
  }

  lemma NothingProposed(s: System, s0: System)
    requires SystemInv(s, s0) && Max(s0.keeper.sizes) < 6 && s.phase.Answered?
    ensures s.phase.ops == []
  {
    DeliveredBound(s, s0);
    hide Starts, KeeperInv, SerialInv, TxsInv, LogInv, RefusedInv, Demand;
    var known, ops := s.keeper.state.index.Keys, s.phase.ops;
    DemandConcat(known, PriorityItems(ops), TxItems(s.phase.txs));
    PriorityDemand(known, ops);
  }
}
