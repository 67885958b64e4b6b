/** Start-up from storage: accounts at some block, brought forward by the logged updates of the blocks after it. */
module StateInit {
  import opened Types
  import opened Ledger
  import opened LedgerRuns
  import opened Keeper
  import opened KeeperBlocks
  import R = Replay

  class PlasmaStateInitParams {
    var tree: map<AccountId, Account>
    var idByAddress: map<Address, AccountId>
    var lastBlock: nat
    var unprocessed: nat

    ghost function Contents(): State
      reads this
    {
      State(tree, idByAddress)
    }

    constructor ()
      ensures Contents() == State(map[], map[]) && lastBlock == 0 && unprocessed == 0
    {
      tree, idByAddress, lastBlock, unprocessed := map[], map[], 0, 0;
    }

    method InsertAccount(id: AccountId, account: Account)
      modifies this`tree, this`idByAddress
      ensures Contents() == Insert(old(Contents()), id, account)
    {
      idByAddress := idByAddress[account.address := id];
      tree := tree[id := account];
    }

    method RemoveAccount(id: AccountId) returns (account: Option<Account>)
      modifies this`tree, this`idByAddress
      ensures Contents() == Remove(old(Contents()), id)
      ensures account == R.Get(old(tree), id)
    {
      if id !in tree {
        return None;
      }
      account := Some(tree[id]);
      tree := tree - {id};
      idByAddress := idByAddress - {account.value.address};
    }

    /** `diff` is the last block of the difference and its updates, if storage has any; `unprocessedAt` is the
        counter storage holds for that block. */
    method LoadStateDiff(diff: Option<(nat, Updates)>, unprocessedAt: nat)
      modifies this
      ensures diff.None? ==>
                Contents() == old(Contents()) && lastBlock == old(lastBlock) && unprocessed == old(unprocessed)
      ensures diff.Some? ==>
                && Contents() == R.ReplayAll(old(Contents()), diff.value.1)
                && lastBlock == diff.value.0 && unprocessed == unprocessedAt
    {
      hide R.ApplyUpdate, Insert, Remove;
      if diff.Some? {
        var updates := diff.value.1;
        for i := 0 to |updates|
          invariant Contents() == R.ReplayAll(old(Contents()), updates[..i])
          invariant lastBlock == old(lastBlock) && unprocessed == old(unprocessed)
        {
          assert updates[..i + 1][..i] == updates[..i];
          var id := updates[i].0;
          var removed := RemoveAccount(id);
          var updated := R.ApplyUpdate(removed, updates[i].1);
          if updated.Some? {
            InsertAccount(id, updated.value);
          }
        }
        assert updates[..|updates|] == updates;
        unprocessed := unprocessedAt;
        lastBlock := diff.value.0;
      }
    }
  }

  /** A start-up that replays what any number of sealed blocks logged finds the ledger those blocks left, but for
      nonces spent by self-transfers; in particular its index is exact. */
  lemma StartUpLags(k: Keeper, k0: Keeper)
    requires KeeperInv(k, k0)
    ensures R.Lags(R.ReplayAll(k0.state, SealedUpdates(k.commits)), BaseAt(k0, k.commits, |k.commits|),
                   R.Stale(RunAll(k0.state, Taken(k.commits)).done))
  {
    hide Inv, RunAll, R.Lags, PendingOk, CommitOk, Sealed;
    SealedMirrors(k.commits, k0);
    R.ReplayOfRun(k0.state, Taken(k.commits));
  }
}
