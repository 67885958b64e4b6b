/** Restoring from what the committer publishes: every sealed block but the dropped ones. */
module ChainRestore {
  import opened Types
  import opened Ledger
  import opened LedgerRuns
  import opened Blocks
  import opened Bits
  import opened Keeper
  import opened KeeperBlocks
  import opened Restore
  import opened RestoreBlocks
  import opened PubData
  import opened PublishedBlocks
  import opened Pipeline
  import opened Committer
  import opened MissedTransfers
  import R = Replay

  /** A block as it is sent to the contract. */
  datatype Publication = Publication(number: nat, data: seq<Byte>)

  /** What the committer sends of the sealed blocks. */
  function Published(commits: seq<Commit>): seq<Publication> {
    if commits == [] then [] else
    var n := |commits| - 1;
    Published(commits[..n]) + if Dropped(commits[n]) then [] else [Publish(commits[n].block)]
  }

  /** A block's bytes are defined when its operations are typed, as executed operations are. */
  function Publish(b: Block): Publication {
    Publication(b.number, if AllTyped(OpsOf(b.transactions)) then BlockData(b) else [])
  }

  /** Restore published blocks in turn, each under its own number. */
  function RestorePublished(t: Tree, published: seq<Publication>, feeAccount: AccountId, sizes: seq<nat>)
    : Outcome<Tree>
  {
    if published == [] then Done(t) else
    var n := |published| - 1;
    match RestorePublished(t, published[..n], feeAccount, sizes)
    case Rejected(e) => Rejected(e)
    case Panicked => Panicked
    case Done(before) => RestoreNext(before, published[n], feeAccount, sizes)
  }

  function RestoreNext(t: Tree, p: Publication, feeAccount: AccountId, sizes: seq<nat>): Outcome<Tree> {
    match ParseOps(p.data)
    case Rejected(e) => Rejected(e)
    case Panicked => Panicked
    case Done(ops) =>
      match RestoreBlock(t, p.number, ops, feeAccount, sizes)
      case Rejected(e) => Rejected(e)
      case Panicked => Panicked
      case Done(r) => Done(r.tree)
  }

  /** The self-transfers executed in dropped blocks, by sender. */
  function Missed(k0: Keeper, commits: seq<Commit>): multiset<AccountId> {
    if commits == [] then multiset{} else
    var n := |commits| - 1;
    Missed(k0, commits[..n]) +
    if Dropped(commits[n]) then Senders(RunAll(BaseAt(k0, commits, n), commits[n].items).done) else multiset{}
  }

  /** A block that is either published or executed nothing. */
  predicate Harmless(c: Commit) {
    Dropped(c) ==> OpsOf(c.block.transactions) == []
  }

  // ---------- One block ----------

  lemma PublishedTrails(c: Commit, base: State, n: nat, number: nat, feeAccount: AccountId, sizes: seq<nat>,
                        wires: seq<FranklinOp>, r: State, height: nat, missed: multiset<AccountId>)
    requires CommitOk(c, base, n, number, feeAccount, sizes) && Inv(base) && feeAccount in base.accounts
    requires AllCarry(WithoutNoops(wires), OpsOf(c.block.transactions))
    requires Trails(r, base, missed)
    ensures var o := RestoreBlock(Tree(r, height, n), c.block.number, wires, feeAccount, sizes);
            && o.Done? && Trails(o.value.tree.state, c.block.root, missed)
            && o.value.tree.blockNumber == height + 1 && o.value.tree.unprocessed == c.block.priorityOps.1
  {
    hide RunAll, AllCarry, RestoreOps, Inv, Ops, OpsOf, Landing, Lost, ChunksUsed, FirstFit, R.Log, Trails;
    var run := RunAll(base, c.items);
    OpsOfLost(Landing(run.done), run.refused);
    OpsOfLanding(run.done);
    RunTrails(r, base, missed, c.items, n, wires);
    PriorityKinds(base, c.items);
    FeeAccountStays(base, c.items, feeAccount);
    FeeAccountTrails(RestoreOps(Progress(r, n, [], []), wires).value.state, run.state, missed, feeAccount);
    ChunksUsedConcat(Landing(run.done), Lost(run.refused));
    LostIsFree(run.refused);
  }

  lemma FeeAccountTrails(r: State, s: State, missed: multiset<AccountId>, feeAccount: AccountId)
    requires Trails(r, s, missed) && feeAccount in s.accounts
    ensures feeAccount in r.accounts
  {
  }

  lemma DroppedTrails(c: Commit, base: State, n: nat, number: nat, feeAccount: AccountId, sizes: seq<nat>,
                      r: State, missed: multiset<AccountId>)
    requires CommitOk(c, base, n, number, feeAccount, sizes) && Inv(base) && Dropped(c) && Trails(r, base, missed)
    ensures Trails(r, c.block.root, missed + Senders(RunAll(base, c.items).done))
    ensures c.block.priorityOps.1 == n
    ensures Senders(RunAll(base, c.items).done) == multiset{} <==> Harmless(c)
  {
    hide RunAll, Inv, Ops, OpsOf, Landing, Lost, ChunksUsed, FirstFit, R.Log, Trails, R.AllSelfTransfers, Senders;
    var run := RunAll(base, c.items);
    DroppedExactly(c, base, n, number, feeAccount, sizes);
    MissRun(r, base, missed, c.items);
    OpsOfLost(Landing(run.done), run.refused);
    OpsOfLanding(run.done);
    NoOps(run.done);
  }

  lemma NoOps(done: seq<Effect>)
    ensures Ops(done) == [] <==> done == []
  {
    assert |Ops(done)| == |done|;
  }

  // ---------- All blocks ----------

  /** Where restoring what was published of the first `n` sealed blocks ends. */
  ghost predicate RestoredTo(o: Outcome<Tree>, k: Keeper, k0: Keeper, n: nat)
    requires n <= |k.commits|
  {
    && o.Done?
    && Trails(o.value.state, BaseAt(k0, k.commits, n), Missed(k0, k.commits[..n]))
    && o.value.unprocessed == UnprocessedAt(k0, k.commits, n)
    && o.value.blockNumber == k0.blockNumber + |Published(k.commits[..n])|
  }

  lemma {:induction false} PublishedRestores(k: Keeper, k0: Keeper, n: nat)
    requires KeeperInv(k, k0) && TypedChain(k) && n <= |k.commits|
    ensures RestoredTo(RestorePublished(TreeAt(k0, k.commits, 0), Published(k.commits[..n]), k0.feeAccount, k0.sizes),
                       k, k0, n)
    ensures Missed(k0, k.commits[..n]) == multiset{} <==> forall i | 0 <= i < n :: Harmless(k.commits[i])
  {
    hide *;
    if n == 0 {
      NothingPublished(k, k0);
    } else {
      PublishedRestores(k, k0, n - 1);
      RestoreOneMore(k, k0, n - 1);
    }
  }

  lemma NothingPublished(k: Keeper, k0: Keeper)
    ensures RestoredTo(RestorePublished(TreeAt(k0, k.commits, 0), Published(k.commits[..0]), k0.feeAccount, k0.sizes),
                       k, k0, 0)
    ensures Missed(k0, k.commits[..0]) == multiset{}
  {
    assert k.commits[..0] == [];
    TrailsByNothing(k0.state);
  }

  lemma RestoreOneMore(k: Keeper, k0: Keeper, i: nat)
    requires KeeperInv(k, k0) && TypedChain(k) && i < |k.commits|
    requires RestoredTo(RestorePublished(TreeAt(k0, k.commits, 0), Published(k.commits[..i]), k0.feeAccount, k0.sizes),
                        k, k0, i)
    ensures RestoredTo(RestorePublished(TreeAt(k0, k.commits, 0), Published(k.commits[..i + 1]),
                                        k0.feeAccount, k0.sizes), k, k0, i + 1)
    ensures Missed(k0, k.commits[..i + 1]) == multiset{} <==>
            Missed(k0, k.commits[..i]) == multiset{} && Harmless(k.commits[i])
  {
    hide KeeperInv, TypedChain, Trails, Harmless, Dropped, BlockData, CommitOk, Inv, ParseOps, AllCarry,
         RestoreBlock, Senders, RunAll, Published, Missed, AllTyped, NoNoops, OpsOf;
    UnfoldPublished(k, k0, i + 1);
    CommitHolds(k, k0, i);
    BaseHolds(k, k0, i);
    var start := TreeAt(k0, k.commits, 0);
    var sent := Published(k.commits[..i]);
    var before := RestorePublished(start, sent, k0.feeAccount, k0.sizes).value;
    var c, base, missed := k.commits[i], BaseAt(k0, k.commits, i), Missed(k0, k.commits[..i]);
    if Dropped(c) {
      DroppedTrails(c, base, UnprocessedAt(k0, k.commits, i), k0.blockNumber + i, k0.feeAccount, k0.sizes,
                    before.state, missed);
      assert Published(k.commits[..i + 1]) == sent;
    } else {
      SealedIsPublishable(k, k0, i);
      BlockDataBack(c.block);
      PublishedTrails(c, base, UnprocessedAt(k0, k.commits, i), k0.blockNumber + i, k0.feeAccount, k0.sizes,
                      ParseOps(BlockData(c.block)).value, before.state, before.blockNumber, missed);
      PublishedIsHarmless(c);
      assert (sent + [Publish(c.block)])[..|sent|] == sent;
      assert missed + multiset{} == missed;
    }
  }

  lemma PublishedIsHarmless(c: Commit)
    requires !Dropped(c)
    ensures Harmless(c)
  {
  }

  lemma UnfoldPublished(k: Keeper, k0: Keeper, n: nat)
    requires 0 < n <= |k.commits|
    ensures var c, before := k.commits[n - 1], k.commits[..n - 1];
            && Published(k.commits[..n]) == Published(before) +
               (if Dropped(c) then [] else [Publish(c.block)])
            && Missed(k0, k.commits[..n]) == Missed(k0, before) +
               (if Dropped(c) then Senders(RunAll(BaseAt(k0, k.commits, n - 1), c.items).done) else multiset{})
  {
    hide Dropped, Publish, Senders, RunAll;
    assert k.commits[..n][..n - 1] == k.commits[..n - 1];
    assert BaseAt(k0, k.commits[..n], n - 1) == BaseAt(k0, k.commits, n - 1);
  }

  /** Restoring what was published of the first `n` sealed blocks always succeeds and finds the keeper's priority
      counter; it finds the keeper's ledger if and only if no dropped block among them executed anything. A later block
      never hides the difference. */
  lemma PublishedRestoresExactly(k: Keeper, k0: Keeper, n: nat)
    requires KeeperInv(k, k0) && TypedChain(k) && n <= |k.commits|
    ensures var o := RestorePublished(TreeAt(k0, k.commits, 0), Published(k.commits[..n]), k0.feeAccount, k0.sizes);
            && o.Done? && o.value.unprocessed == UnprocessedAt(k0, k.commits, n)
            && (o.value.state == BaseAt(k0, k.commits, n) <==> forall i | 0 <= i < n :: Harmless(k.commits[i]))
  {
    hide KeeperInv, TypedChain, Harmless, RestorePublished, Published, Missed, Trails;
    PublishedRestores(k, k0, n);
    var o := RestorePublished(TreeAt(k0, k.commits, 0), Published(k.commits[..n]), k0.feeAccount, k0.sizes);
    TrailsExactly(o.value.state, BaseAt(k0, k.commits, n), Missed(k0, k.commits[..n]));
  }

  // ---------- What the contract accepts ----------

  /** A contract that waits for block `next` takes only the next number and refuses every other. */
  function Accepted(next: nat, sent: seq<Publication>): seq<Publication> {
    if sent == [] then [] else
    var before := Accepted(next, sent[..|sent| - 1]);
    if sent[|sent| - 1].number == next + |before| then before + [sent[|sent| - 1]] else before
  }

  /** How many sealed blocks come before the first dropped one. */
  function Undropped(commits: seq<Commit>): (m: nat)
    ensures m <= |commits|
    ensures forall i | 0 <= i < m :: !Dropped(commits[i])
    ensures m == |commits| || Dropped(commits[m])
  {
    if commits == [] then 0 else
    var n := |commits| - 1;
    var m := Undropped(commits[..n]);
    if m == n && !Dropped(commits[n]) then n + 1 else m
  }

  lemma AcceptMore(next: nat, sent: seq<Publication>, p: Publication)
    ensures var before := Accepted(next, sent);
            Accepted(next, sent + [p]) == before + if p.number == next + |before| then [p] else []
  {
    assert (sent + [p])[..|sent|] == sent;
    assert Accepted(next, sent) + [] == Accepted(next, sent);
  }

  lemma NothingSent(next: nat, commits: seq<Commit>)
    requires commits == []
    ensures Undropped(commits) == 0 && Published(commits) == [] && Accepted(next, []) == []
  {
  }

  /** The contract stops for good at the first dropped block: every later number is too high. */
  lemma {:induction false} AcceptedUpToDrop(k: Keeper, k0: Keeper, n: nat)
    requires KeeperInv(k, k0) && n <= |k.commits|
    ensures var m := Undropped(k.commits[..n]);
            && Accepted(k0.blockNumber, Published(k.commits[..n])) == Published(k.commits[..m])
            && |Published(k.commits[..m])| == m
  {
    hide KeeperInv, Dropped, Publish, Accepted, Published, Undropped;
    if n == 0 {
      NothingSent(k0.blockNumber, k.commits[..0]);
    } else {
      var i := n - 1;
      AcceptedUpToDrop(k, k0, i);
      NumberOf(k, k0, i);
      var p, sent := Publish(k.commits[i].block), Published(k.commits[..i]);
      NumberPublished(k.commits[i].block);
      OneMorePublished(k.commits, i);
      AcceptMore(k0.blockNumber, sent, p);
      if !Dropped(k.commits[i]) && Undropped(k.commits[..i]) < i {
        assert Accepted(k0.blockNumber, sent + [p]) == Accepted(k0.blockNumber, sent);
      }
    }
  }

  lemma OneMorePublished(commits: seq<Commit>, i: nat)
    requires i < |commits|
    ensures var c, m := commits[i], Undropped(commits[..i]);
            && Published(commits[..i + 1]) ==
               (if Dropped(c) then Published(commits[..i]) else Published(commits[..i]) + [Publish(c.block)])
            && Undropped(commits[..i + 1]) == if m == i && !Dropped(c) then i + 1 else m
  {
    hide Dropped, Publish;
    assert commits[..i + 1][..i] == commits[..i];
    assert Published(commits[..i]) + [] == Published(commits[..i]);
  }

  lemma NumberPublished(b: Block)
    ensures Publish(b).number == b.number
  {
  }

  /** What the contract holds rebuilds exactly the keeper's ledger, block number and counter at the first dropped block;
      the restorer keeps up with all sealed blocks if and only if none was dropped. */
  lemma AcceptedRestoresExactly(k: Keeper, k0: Keeper, n: nat)
    requires KeeperInv(k, k0) && TypedChain(k) && n <= |k.commits|
    ensures var m := Undropped(k.commits[..n]);
            && RestorePublished(TreeAt(k0, k.commits, 0), Accepted(k0.blockNumber, Published(k.commits[..n])),
                                k0.feeAccount, k0.sizes) == Done(TreeAt(k0, k.commits, m))
            && (m == n <==> forall i | 0 <= i < n :: !Dropped(k.commits[i]))
  {
    hide KeeperInv, TypedChain, RestorePublished, Published, Missed, Trails, Accepted, Dropped;
    var m := Undropped(k.commits[..n]);
    AcceptedUpToDrop(k, k0, n);
    PublishedRestores(k, k0, m);
    PublishedRestoresExactly(k, k0, m);
    forall i | 0 <= i < m ensures Harmless(k.commits[i]) {
      assert !Dropped(k.commits[..n][i]);
    }
  }
}
