/** The whole way, in whatever order the pipeline's components take their steps: from what it publishes back to its
    ledger, and how far that goes. */
module EndToEnd {
  import opened Ledger
  import opened Bits
  import opened Keeper
  import opened Restore
  import opened RestoreBlocks
  import opened PublishedBlocks
  import opened ChainRestore
  import opened Pipeline
  import opened PipelineInv
  import opened PipelineRuns
  import opened TypedRuns
  import opened EventsStates
  import opened EventsDelivery

  /** What the committer publishes of the first `n` sealed blocks rebuilds the keeper's ledger after them if and only
      if no block it dropped had executed anything. */
  lemma PublishedRunRestoresExactly(s0: System, events: seq<Event>, n: nat)
    requires Starts(s0) && TypedInputs(s0, events) && n <= |Play(s0, events).keeper.commits|
    ensures var k0, k := s0.keeper, Play(s0, events).keeper;
            var o := RestorePublished(Tree(k0.state, k0.blockNumber, k0.unprocessed), Published(k.commits[..n]),
                                      k0.feeAccount, k0.sizes);
            && o.Done? && o.value.unprocessed == UnprocessedAt(k0, k.commits, n)
            && (o.value.state == BaseAt(k0, k.commits, n) <==> forall i | 0 <= i < n :: Harmless(k.commits[i]))
  {
    EveryInterleaving(s0, events);
    SealsOnlyTyped(s0, events);
    hide Play, Starts, TypedInputs, KeeperInv, SerialInv, TxsInv, LogInv, SpaceInv, RefusedInv, TypedChain,
         RestorePublished, Published, Harmless;
    PublishedRestoresExactly(Play(s0, events).keeper, s0.keeper, n);
  }

  /** What the contract accepts of that rebuilds the keeper's ledger, block number and counter at the first dropped
      block, whatever that block held; so it rebuilds all `n` blocks if and only if none was dropped. */
  lemma AcceptedRunRestoresExactly(s0: System, events: seq<Event>, n: nat)
    requires Starts(s0) && TypedInputs(s0, events) && n <= |Play(s0, events).keeper.commits|
    ensures var k0, k := s0.keeper, Play(s0, events).keeper;
            var m := Undropped(k.commits[..n]);
            && RestorePublished(Tree(k0.state, k0.blockNumber, k0.unprocessed),
                                Accepted(k0.blockNumber, Published(k.commits[..n])), k0.feeAccount, k0.sizes) ==
               Done(TreeAt(k0, k.commits, m))
            && (m == n <==> forall i | 0 <= i < n :: !Dropped(k.commits[i]))
  {
    EveryInterleaving(s0, events);
    SealsOnlyTyped(s0, events);
    hide Play, Starts, TypedInputs, KeeperInv, SerialInv, TxsInv, LogInv, SpaceInv, RefusedInv, TypedChain,
         RestorePublished, Published, Accepted, Dropped;
    AcceptedRestoresExactly(Play(s0, events).keeper, s0.keeper, n);
  }

  // ---------- From the contract's events back to the ledger ----------

  /** What the restorer downloads for the blocks delivered to it: the data of the transactions that committed them. */
  function Downloads(events: seq<BlockEvent>, lookup: nat -> seq<Byte>): seq<Publication> {
    seq(|events|, i requires 0 <= i < |events| => Publication(events[i].blockNum, lookup(events[i].txHash)))
  }

  /** The standing blocks of the contract are the first of those it accepted, by the data of their transactions. */
  ghost predicate Holds(c: Contract, accepted: seq<Publication>, lookup: nat -> seq<Byte>) {
    |c.chain| <= |accepted| && forall i | 0 <= i < |c.chain| :: lookup(c.chain[i]) == accepted[i].data
  }

  ghost predicate NoneDropped(commits: seq<Commit>, m: nat)
    requires m <= |commits|
  {
    forall i | 0 <= i < m :: !Dropped(commits[i])
  }

  lemma {:induction false} PublishedAt(commits: seq<Commit>, m: nat)
    requires m <= |commits| && NoneDropped(commits, m)
    ensures |Published(commits[..m])| == m
    ensures forall i | 0 <= i < m :: Published(commits[..m])[i] == Publish(commits[i].block)
  {
    hide Dropped, Publish;
    if m > 0 {
      hide Published;
      PublishedAt(commits, m - 1);
      OneMorePublished(commits, m - 1);
    }
  }

  /** What is delivered of a contract that holds what it accepted is what was published of the verified blocks. */
  lemma DeliveredIsPublished(k: Keeper, k0: Keeper, n: nat, c: Contract, delivered: seq<BlockEvent>,
                             lookup: nat -> seq<Byte>)
    requires KeeperInv(k, k0) && k0.blockNumber == 1 && n <= |k.commits|
    requires Sane(c) && Holds(c, Accepted(1, Published(k.commits[..n])), lookup)
    requires delivered == Numbered(c.chain, 0, c.verified)
    ensures c.verified <= n && Undropped(k.commits[..c.verified]) == c.verified
    ensures Downloads(delivered, lookup) == Accepted(1, Published(k.commits[..c.verified]))
  {
    hide KeeperInv, Dropped, Publish, Published, Accepted, Undropped;
    var m, v := Undropped(k.commits[..n]), c.verified;
    AcceptedUpToDrop(k, k0, n);
    AcceptedUpToDrop(k, k0, v);
    forall i | 0 <= i < m ensures !Dropped(k.commits[i]) { assert !Dropped(k.commits[..n][i]); }
    UndroppedPrefix(k.commits, v);
    PublishedAt(k.commits, m);
    PublishedAt(k.commits, v);
    var downloaded, published := Downloads(delivered, lookup), Published(k.commits[..v]);
    forall i | 0 <= i < v ensures downloaded[i] == published[i] {
      assert published[i] == Published(k.commits[..m])[i];
      NumberOf(k, k0, i);
      NumberPublished(k.commits[i].block);
    }
  }

  lemma UndroppedPrefix(commits: seq<Commit>, v: nat)
    requires v <= |commits| && NoneDropped(commits, v)
    ensures Undropped(commits[..v]) == v
  {
    hide Dropped;
    assert forall i | 0 <= i < v :: commits[..v][i] == commits[i];
  }

  /** For every interleaving of the pipeline and every legal history of a contract that holds what it accepted of the
      first `n` blocks: whenever the rounds do not abort, what they deliver rebuilds the keeper's ledger, block number
      and counter as they were after the last verified block. */
  lemma DeliveredRunRestores(s0: System, events: seq<Event>, n: nat, history: seq<seq<ContractEvent>>, indexed: bool,
                             genesis: nat, heads: seq<nat>, step: nat, lookup: nat -> seq<Byte>)
    requires Starts(s0) && TypedInputs(s0, events) && s0.keeper.blockNumber == 1
    requires n <= |Play(s0, events).keeper.commits|
    requires LegalHistory(history, genesis) && Monotone(genesis, heads, |history|)
    requires genesis <= Watched(genesis, heads, step) < |history|
    requires Holds(At(history, Watched(genesis, heads, step)),
                   Accepted(1, Published(Play(s0, events).keeper.commits[..n])), lookup)
    ensures var k0, k := s0.keeper, Play(s0, events).keeper;
            var end := Watched(genesis, heads, step);
            var r := Rounds(history, indexed, genesis, heads, step);
            && (r.Some? <==> indexed || NoReverts(Between(history, genesis, end)))
            && At(history, end).verified <= n
            && (r.Some? ==>
                  RestorePublished(Tree(k0.state, 1, k0.unprocessed), Downloads(r.value.1, lookup), k0.feeAccount,
                                   k0.sizes) == Done(TreeAt(k0, k.commits, At(history, end).verified)))
  {
    hide Play, Starts, TypedInputs, LegalHistory, Holds, At, Rounds, NoReverts, Between, Accepted, Published, Numbered,
         RestorePublished, Downloads, KeeperInv, SerialInv, TxsInv, LogInv, SpaceInv, RefusedInv, TypedChain, Tracks,
         Undropped;
    EveryInterleaving(s0, events);
    SealsOnlyTyped(s0, events);
    DeliversVerifiedBlocks(history, indexed, genesis, heads, step);
    var k, k0 := Play(s0, events).keeper, s0.keeper;
    var end := Watched(genesis, heads, step);
    var c := At(history, end);
    HistoryStep(history, genesis, end, end);
    DeliveredIsPublished(k, k0, n, c, Numbered(c.chain, 0, c.verified), lookup);
    AcceptedRestoresExactly(k, k0, c.verified);
  }

  /** So once the confirmed head has rested at `h` for enough rounds to walk there, and the contract holds at `h` what
      it accepted, the restorer has rebuilt the keeper as it was after the last block verified by then. */
  lemma CaughtUpRunRestores(s0: System, events: seq<Event>, n: nat, history: seq<seq<ContractEvent>>, indexed: bool,
                            genesis: nat, heads: seq<nat>, step: nat, h: nat, rounds: nat, lookup: nat -> seq<Byte>)
    requires Starts(s0) && TypedInputs(s0, events) && s0.keeper.blockNumber == 1
    requires n <= |Play(s0, events).keeper.commits|
    requires LegalHistory(history, genesis) && Monotone(genesis, heads, |history|)
    requires Rests(heads, h, rounds) && rounds > 0 && genesis + rounds * (step + 1) >= h && genesis <= h < |history|
    requires Holds(At(history, h), Accepted(1, Published(Play(s0, events).keeper.commits[..n])), lookup)
    requires indexed || NoReverts(Between(history, genesis, h))
    ensures var k0, k := s0.keeper, Play(s0, events).keeper;
            var r := Rounds(history, indexed, genesis, heads, step);
            && At(history, h).verified <= n && r.Some?
            && RestorePublished(Tree(k0.state, 1, k0.unprocessed), Downloads(r.value.1, lookup), k0.feeAccount,
                                k0.sizes) == Done(TreeAt(k0, k.commits, At(history, h).verified))
  {
    hide Play, Starts, TypedInputs, LegalHistory, Holds, At, Rounds, NoReverts, Between, Accepted, Published, Numbered,
         RestorePublished, Downloads, KeeperInv, SerialInv, TxsInv, LogInv, SpaceInv, RefusedInv, TypedChain, Undropped,
         Monotone;
    EveryInterleaving(s0, events);
    SealsOnlyTyped(s0, events);
    CatchesUp(history, indexed, genesis, heads, step, h, rounds);
    var k, k0, c := Play(s0, events).keeper, s0.keeper, At(history, h);
    DeliveredIsPublished(k, k0, n, c, Numbered(c.chain, 0, c.verified), lookup);
    AcceptedRestoresExactly(k, k0, c.verified);
  }
}
