/** No priority operation is overlooked: in every interleaving the watcher holds all that it was ever told, and offers
    the next operations as far as there is room. */
module PipelineWatches {
  import opened Types
  import opened EthWatch
  import opened Mempool
  import opened Keeper
  import opened Pipeline
  import opened PipelineInv
  import opened PipelineRuns

  function PolledIn(e: Event): seq<PriorityOp> {
    if e.Poll? then e.ops else []
  }

  /** Everything the watcher was told, in order. */
  function Polled(events: seq<Event>): seq<PriorityOp> {
    Gather(PolledIn, events)
  }

  lemma NextWatches(s: System, e: Event)
    ensures Next(s, e).watcher == Collect(s.watcher, PolledIn(e))
  {
    hide PoolTake, PoolAnswer, KeeperTake, Accept, Seal, KeeperStep, Dropped, Select;
    if e.PoolTakes? && s.inbox != [] {
      PoolTakeWatches(s);
    } else if e.PoolAnswers? && s.phase.Selected? {
      PoolAnswerMoves(s);
    } else if e.KeeperTakes? && s.toKeeper != [] {
      KeeperTakeWatches(s);
    }
  }

  lemma PoolTakeWatches(s: System)
    requires s.inbox != []
    ensures PoolTake(s).watcher == s.watcher
  {
  }

  lemma KeeperTakeWatches(s: System)
    requires s.toKeeper != []
    ensures KeeperTake(s).watcher == s.watcher
  {
  }

  lemma {:induction false} WatcherCollects(s0: System, events: seq<Event>)
    ensures Play(s0, events).watcher == Collect(s0.watcher, Polled(events))
  {
    if events != [] {
      hide Next, Collect;
      var n := |events| - 1;
      WatcherCollects(s0, events[..n]);
      NextWatches(Play(s0, events[..n]), events[n]);
      CollectConcat(s0.watcher, Polled(events[..n]), PolledIn(events[n]));
    }
  }

  /** The operation under an id is the one the watcher was told last, or the one it started with. */
  ghost predicate Told(s0: System, events: seq<Event>, n: nat, op: PriorityOp) {
    if Mentions(Polled(events), n) then exists i: nat :: LastWith(Polled(events), n, i) && Polled(events)[i] == op
    else Stored(s0.watcher, n, op)
  }

  lemma WatcherHoldsAll(s0: System, events: seq<Event>, n: nat, op: PriorityOp)
    ensures Stored(Play(s0, events).watcher, n, op) <==> Told(s0, events, n, op)
  {
    hide Play, Collect, Polled;
    var polled := Polled(events);
    WatcherCollects(s0, events);
    CollectExactly(s0.watcher, polled, n);
    if Mentions(polled, n) {
      SomeIsLast(polled, n);
    }
  }

  lemma {:induction false} SomeIsLast(ops: seq<PriorityOp>, n: nat)
    requires Mentions(ops, n)
    ensures exists i: nat :: LastWith(ops, n, i)
  {
    var m := |ops| - 1;
    if ops[m].serialId == n {
      assert LastWith(ops, n, m);
    } else {
      var init := ops[..m];
      MentionsOneMore(ops, n);
      SomeIsLast(init, n);
      var i: nat :| LastWith(init, n, i);
      assert LastWith(ops, n, i);
    }
  }

  /** Whenever the watcher is asked, what it was told of the operations from the proposer's counter on is what it
      offers, without a gap and first things first, as far as the largest block has room. */
  lemma OffersNext(s0: System, events: seq<Event>, want: seq<PriorityOp>)
    requires Starts(s0) && Play(s0, events).phase.Selecting?
    requires var s := Play(s0, events);
             && (forall i | 0 <= i < |want| :: Told(s0, events, s.counter + i, want[i]))
             && ChunksOf(want) <= Max(s.keeper.sizes)
    ensures var next := Next(Play(s0, events), WatcherAnswers);
            next.phase.Selected? && want <= next.phase.ops
  {
    hide Play, Starts, KeeperInv, TxsInv, LogInv, SpaceInv, RefusedInv, Told, Serial, Gather, Keyed, Selection;
    EveryInterleaving(s0, events);
    var s := Play(s0, events);
    forall i | 0 <= i < |want| ensures Stored(s.watcher, s.counter + i, want[i]) {
      WatcherHoldsAll(s0, events, s.counter + i, want[i]);
    }
    AnswersWith(s, want);
  }

  lemma AnswersWith(s: System, want: seq<PriorityOp>)
    requires s.phase.Selecting? && s.phase.first == s.counter
    requires (forall i | 0 <= i < |want| :: Stored(s.watcher, s.counter + i, want[i]))
    requires ChunksOf(want) <= Max(s.keeper.sizes)
    ensures var next := Next(s, WatcherAnswers); next.phase.Selected? && want <= next.phase.ops
  {
    hide Selection, Stored;
    SelectionTakesAll(s.watcher, s.counter, Max(s.keeper.sizes),
                      Select(s.watcher, s.counter, Max(s.keeper.sizes), []), want);
  }

  // ---------- Submitted transactions ----------

  function SubmittedIn(e: Event): seq<Tx> {
    if e.Submit? then [e.tx] else []
  }

  function NewIn(message: Message): seq<Tx> {
    if message.NewTx? then [message.tx] else []
  }

  /** Everything submitted, counted as often as it was, was admitted or refused or is still in the inbox. */
  ghost predicate Accounted(s: System, submitted: seq<Tx>) {
    multiset(submitted) == multiset(s.admitted) + multiset(s.refused) + multiset(Gather(NewIn, s.inbox))
  }

  lemma PoolTakeAccounts(s: System, submitted: seq<Tx>)
    requires Accounted(s, submitted) && s.inbox != []
    ensures Accounted(PoolTake(s), submitted)
  {
    hide Gather, HearAll, Admits;
    GatherFirst(NewIn, s.inbox);
    var rest := Gather(NewIn, s.inbox[1..]);
    if s.inbox[0].NewTx? {
      assert multiset([s.inbox[0].tx] + rest) == multiset{s.inbox[0].tx} + multiset(rest);
    } else {
      assert [] + rest == rest;
    }
  }

  lemma InboxAccounts(s: System, message: Message)
    ensures Gather(NewIn, s.inbox + [message]) ==
            if message.NewTx? then Gather(NewIn, s.inbox) + [message.tx] else Gather(NewIn, s.inbox)
  {
    hide Gather;
    GatherMore(NewIn, s.inbox, message);
    assert Gather(NewIn, s.inbox) + [] == Gather(NewIn, s.inbox);
  }

  lemma NextAccounts(s: System, e: Event, submitted: seq<Tx>)
    requires Accounted(s, submitted)
    ensures Accounted(Next(s, e), submitted + SubmittedIn(e))
  {
    hide Gather, PoolTake, PoolAnswer, Accept, Seal, KeeperStep, Select, Collect, Dropped;
    assert !e.Submit? ==> submitted + SubmittedIn(e) == submitted;
    match e
    case Submit(tx) =>
      InboxAccounts(s, NewTx(tx));
      assert multiset(submitted + [tx]) == multiset(submitted) + multiset{tx};
    case Tick => InboxAccounts(s, GetBlock(s.counter));
    case PoolTakes => if s.inbox != [] { PoolTakeAccounts(s, submitted); }
    case PoolAnswers => if s.phase.Selected? { PoolAnswerMoves(s); }
    case CommitterTakes =>
      if s.delivered < |s.keeper.commits| {
        InboxAccounts(s, UpdateNonces(s.keeper.commits[s.delivered].updates));
        assert s.inbox + [] == s.inbox;
      }
    case _ =>
  }

  /** In every interleaving, each submission leads to exactly one admission or refusal, or still waits in the inbox. */
  lemma {:induction false} SubmittedOnce(s0: System, events: seq<Event>)
    requires Starts(s0)
    ensures Accounted(Play(s0, events), Gather(SubmittedIn, events))
  {
    if events == [] {
      assert Gather(NewIn, s0.inbox) == [];
    } else {
      hide Next, Accounted, Starts;
      var n := |events| - 1;
      SubmittedOnce(s0, events[..n]);
      NextAccounts(Play(s0, events[..n]), events[n], Gather(SubmittedIn, events[..n]));
    }
  }
}
