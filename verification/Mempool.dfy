/** The mempool: the nonces and addresses it has heard of, and the queue of
    transactions it proposes from. */
module Mempool {
  import opened Types
  import opened EthWatch

  datatype Pool = Pool(nonces: map<Address, nat>, ids: map<AccountId, Address>, ready: seq<Tx>)

  function NonceIn(pool: Pool, address: Address): nat {
    if address in pool.nonces then pool.nonces[address] else 0
  }

  predicate Admits(pool: Pool, tx: Tx) {
    tx.Nonce() >= NonceIn(pool, tx.Sender())
  }

  /** What the mempool learns from one account update. */
  function Hear(pool: Pool, id: AccountId, u: AccountUpdate): Pool {
    match u
    case Create(address, nonce) =>
      pool.(ids := pool.ids[id := address], nonces := pool.nonces[address := nonce])
    case Delete(address, _) => pool.(ids := pool.ids - {id}, nonces := pool.nonces - {address})
    case AddToken(_, nonce, _) => SetNonce(pool, id, nonce)
    case RemoveToken(_, nonce, _) => SetNonce(pool, id, nonce)
    case ChangePubKeyHash(_, _, _, nonce) => SetNonce(pool, id, nonce)
  }

  function SetNonce(pool: Pool, id: AccountId, nonce: nat): Pool {
    if id in pool.ids && pool.ids[id] in pool.nonces then pool.(nonces := pool.nonces[pool.ids[id] := nonce]) else pool
  }

  function HearAll(pool: Pool, us: Updates): Pool {
    if us == [] then pool
    else Hear(HearAll(pool, us[..|us| - 1]), us[|us| - 1].0, us[|us| - 1].1)
  }

  lemma {:induction false} HearConcat(pool: Pool, us: Updates, vs: Updates)
    ensures HearAll(pool, us + vs) == HearAll(HearAll(pool, us), vs)
  {
    if vs == [] {
      assert us + vs == us;
    } else {
      assert (us + vs)[..|us + vs| - 1] == us + vs[..|vs| - 1];
      HearConcat(pool, us, vs[..|vs| - 1]);
    }
  }

  lemma {:induction false} HearingLeavesQueue(pool: Pool, queue: seq<Tx>, us: Updates)
    ensures HearAll(pool.(ready := queue), us) == HearAll(pool, us).(ready := queue)
    ensures HearAll(pool, us).ready == pool.ready
  {
    if us != [] {
      HearingLeavesQueue(pool, queue, us[..|us| - 1]);
    }
  }

  /** Space the mempool sets aside for transactions. */
  function Estimate(known: set<Address>, txs: seq<Tx>): nat {
    if txs == [] then 0 else Estimate(known, txs[..|txs| - 1]) + TxChunks(known, txs[|txs| - 1])
  }

  /** `n` transactions off the front fit, and no more do. */
  ghost predicate Fitting(known: set<Address>, ready: seq<Tx>, room: nat, n: nat) {
    && n <= |ready|
    && Estimate(known, ready[..n]) <= room
    && (n < |ready| ==> Estimate(known, ready[..n]) + TxChunks(known, ready[n]) > room)
  }

  function CountFitting(known: set<Address>, ready: seq<Tx>, room: nat, sofar: nat): (n: nat)
    requires sofar <= |ready| && Estimate(known, ready[..sofar]) <= room
    ensures Fitting(known, ready, room, n)
    decreases |ready| - sofar
  {
    if sofar < |ready| && Estimate(known, ready[..sofar]) + TxChunks(known, ready[sofar]) <= room then
      assert ready[..sofar + 1][..sofar] == ready[..sofar];
      CountFitting(known, ready, room, sofar + 1)
    else sofar
  }

  lemma {:induction false} EstimateGrows(known: set<Address>, txs: seq<Tx>, n: nat)
    requires n < |txs|
    ensures Estimate(known, txs[..n]) + TxChunks(known, txs[n]) <= Estimate(known, txs)
  {
    if n < |txs| - 1 {
      assert txs[..|txs| - 1][..n] == txs[..n];
      EstimateGrows(known, txs[..|txs| - 1], n);
    }
  }

  lemma FittingIsUnique(known: set<Address>, ready: seq<Tx>, room: nat, n: nat, m: nat)
    requires Fitting(known, ready, room, n) && Fitting(known, ready, room, m)
    ensures n == m
  {
    if n < m {
      assert ready[..m][..n] == ready[..n];
      EstimateGrows(known, ready[..m], n);
    } else if m < n {
      assert ready[..n][..m] == ready[..m];
      EstimateGrows(known, ready[..n], m);
    }
  }

  lemma NothingEstimated(known: set<Address>)
    ensures Estimate(known, []) == 0
  {
  }

  lemma EstimateMore(known: set<Address>, txs: seq<Tx>, tx: Tx)
    ensures Estimate(known, txs + [tx]) == Estimate(known, txs) + TxChunks(known, tx)
  {
    assert (txs + [tx])[..|txs|] == txs;
  }

  lemma FittingFrom(known: set<Address>, txs: seq<Tx>, rest: seq<Tx>, left: nat)
    requires rest != [] ==> left < TxChunks(known, rest[0])
    ensures Fitting(known, txs + rest, Estimate(known, txs) + left, |txs|)
  {
    assert (txs + rest)[..|txs|] == txs;
  }

  ghost predicate Distinct(accounts: map<AccountId, Account>) {
    forall i, j | i in accounts && j in accounts && accounts[i].address == accounts[j].address :: i == j
  }

  /** Every account is known by id; every known nonce is that of an account with the address. */
  ghost predicate Loaded(pool: Pool, accounts: map<AccountId, Account>) {
    && pool.ids.Keys == accounts.Keys
    && (forall id | id in accounts :: pool.ids[id] == accounts[id].address && pool.ids[id] in pool.nonces)
    && (forall a | a in pool.nonces :: exists id :: HasNonce(accounts, id, a, pool.nonces[a]))
  }

  predicate HasNonce(accounts: map<AccountId, Account>, id: AccountId, address: Address, nonce: nat) {
    id in accounts && accounts[id].address == address && accounts[id].nonce == nonce
  }

  /** The mempool knows exactly these accounts, by id and by address, with their nonces. */
  ghost predicate Knows(pool: Pool, accounts: map<AccountId, Account>) {
    && pool.ids.Keys == accounts.Keys
    && (forall id | id in accounts :: pool.ids[id] == accounts[id].address)
    && KnowsNonces(pool.nonces, accounts)
    && NoStrangers(pool.nonces.Keys, accounts)
  }

  ghost predicate KnowsNonces(nonces: map<Address, nat>, accounts: map<AccountId, Account>) {
    forall id | id in accounts :: accounts[id].address in nonces && nonces[accounts[id].address] == accounts[id].nonce
  }

  ghost predicate NoStrangers(known: set<Address>, accounts: map<AccountId, Account>) {
    forall a | a in known :: exists id :: HasAddress(accounts, id, a)
  }

  predicate HasAddress(accounts: map<AccountId, Account>, id: AccountId, address: Address) {
    id in accounts && accounts[id].address == address
  }

  lemma LoadedIsKnown(pool: Pool, accounts: map<AccountId, Account>)
    requires Loaded(pool, accounts) && Distinct(accounts)
    ensures Knows(pool, accounts)
  {
    forall id | id in accounts ensures pool.nonces[pool.ids[id]] == accounts[id].nonce {
      var j :| HasNonce(accounts, j, pool.ids[id], pool.nonces[pool.ids[id]]);
      assert j == id;
    }
    forall a | a in pool.nonces ensures exists id :: HasAddress(accounts, id, a) {
      var j :| HasNonce(accounts, j, a, pool.nonces[a]);
      assert HasAddress(accounts, j, a);
    }
  }

  lemma LoadedNothing(pool: Pool)
    requires pool.nonces == map[] && pool.ids == map[]
    ensures Loaded(pool, map[])
  {
  }

  lemma LoadOne(pool: Pool, seen: map<AccountId, Account>, id: AccountId, account: Account)
    requires id !in seen && Loaded(pool, seen)
    ensures Loaded(Pool(pool.nonces[account.address := account.nonce], pool.ids[id := account.address], pool.ready),
                   seen[id := account])
  {
    var more := seen[id := account];
    var nonces := pool.nonces[account.address := account.nonce];
    forall a | a in nonces ensures exists i :: HasNonce(more, i, a, nonces[a]) {
      if a == account.address {
        assert HasNonce(more, id, a, nonces[a]);
      } else {
        var i :| HasNonce(seen, i, a, pool.nonces[a]);
        assert HasNonce(more, i, a, nonces[a]);
      }
    }
  }

  class MempoolState {
    var nonces: map<Address, nat>
    var ids: map<AccountId, Address>
    var ready: seq<Tx>

    ghost function Contents(): Pool
      reads this
    {
      Pool(nonces, ids, ready)
    }

    /** Accounts loaded at start-up, in any order; of two with one address, either nonce may stay. */
    constructor (accounts: map<AccountId, Account>)
      ensures ready == [] && Loaded(Contents(), accounts)
      ensures Distinct(accounts) ==> Knows(Contents(), accounts)
    {
      nonces, ids, ready := map[], map[], [];
      new;
      hide Loaded, Knows, Distinct;
      var rest := accounts.Keys;
      assert accounts - rest == map[];
      LoadedNothing(Contents());
      while rest != {}
        invariant rest <= accounts.Keys
        invariant ready == [] && Loaded(Contents(), accounts - rest)
        decreases |rest|
      {
        var id :| id in rest;
        var account := accounts[id];
        LoadOne(Contents(), accounts - rest, id, account);
        assert (accounts - rest)[id := account] == accounts - (rest - {id});
        ids := ids[id := account.address];
        nonces := nonces[account.address := account.nonce];
        rest := rest - {id};
      }
      assert accounts - rest == accounts;
      if Distinct(accounts) {
        LoadedIsKnown(Contents(), accounts);
      }
    }

    method ChunksForTx(tx: Tx) returns (chunks: nat)
      ensures chunks == TxChunks(nonces.Keys, tx)
    {
      match tx
      case TransferTx(t) => chunks := if t.to in nonces then 2 else 5;
      case WithdrawTx(_) => chunks := 6;
      case CloseTx(_) => chunks := 1;
      case ChangePubKeyTx(_) => chunks := 6;
    }

    method AddTx(tx: Tx) returns (ok: bool)
      modifies this`ready
      ensures ok == Admits(old(Contents()), tx)
      ensures ready == if ok then old(ready) + [tx] else old(ready)
    {
      var nonce := if tx.Sender() in nonces then nonces[tx.Sender()] else 0;
      ok := tx.Nonce() >= nonce;
      if ok {
        ready := ready + [tx];
      }
    }

    method UpdateNonces(updates: Updates)
      modifies this
      ensures Contents() == HearAll(old(Contents()), updates)
      ensures ready == old(ready)
    {
      for i := 0 to |updates|
        invariant Contents() == HearAll(old(Contents()), updates[..i])
        invariant ready == old(ready)
      {
        assert updates[..i + 1][..i] == updates[..i];
        var (id, u) := updates[i];
        match u
        case Create(address, nonce) =>
          ids := ids[id := address];
          nonces := nonces[address := nonce];
        case Delete(address, _) =>
          ids := ids - {id};
          nonces := nonces - {address};
        case AddToken(_, newNonce, _) => PutNonce(id, newNonce);
        case RemoveToken(_, newNonce, _) => PutNonce(id, newNonce);
        case ChangePubKeyHash(_, _, _, newNonce) => PutNonce(id, newNonce);
      }
      assert updates[..|updates|] == updates;
    }

    method PutNonce(id: AccountId, nonce: nat)
      modifies this`nonces
      ensures Contents() == SetNonce(old(Contents()), id, nonce)
    {
      if id in ids {
        var address := ids[id];
        if address in nonces {
          nonces := nonces[address := nonce];
        }
      }
    }

    /** Pops transactions while they fit, and puts back the one that did not. */
    method PrepareTxForBlock(room: nat) returns (chunksLeft: nat, txs: seq<Tx>)
      modifies this`ready
      ensures txs + ready == old(ready)
      ensures Fitting(nonces.Keys, old(ready), room, |txs|)
      ensures chunksLeft == room - Estimate(nonces.Keys, txs)
    {
      hide Estimate, Fitting, TxChunks;
      chunksLeft, txs := room, [];
      NothingEstimated(nonces.Keys);
      var reinsert := None;
      while ready != []
        invariant txs + ready == old(ready) && reinsert.None?
        invariant Estimate(nonces.Keys, txs) + chunksLeft == room
        decreases |ready|
      {
        var tx := ready[0];
        ready := ready[1..];
        var chunks := ChunksForTx(tx);
        if chunksLeft >= chunks {
          EstimateMore(nonces.Keys, txs, tx);
          txs := txs + [tx];
          chunksLeft := chunksLeft - chunks;
        } else {
          reinsert := Some(tx);
          break;
        }
      }
      if reinsert.Some? {
        ready := [reinsert.value] + ready;
      }
      FittingFrom(nonces.Keys, txs, ready, chunksLeft);
    }

    /** Asks the watcher for operations; what they take never exceeds the block, so nothing underflows. */
    method SelectPriorityOps(watcher: EthWatcher, first: nat, max: nat) returns (chunksLeft: nat, ops: seq<PriorityOp>)
      ensures Selection(watcher.priorityQueue, first, max, ops)
      ensures chunksLeft + ChunksOf(ops) == max
    {
      ops := watcher.GetPriorityRequests(first, max);
      var used := 0;
      for i := 0 to |ops|
        invariant used == ChunksOf(ops[..i])
      {
        assert ops[..i + 1][..i] == ops[..i];
        used := used + PriorityChunks(ops[i].data);
      }
      assert ops[..|ops|] == ops;
      chunksLeft := max - used;
    }

    method ProposeNewBlock(watcher: EthWatcher, first: nat, max: nat) returns (ops: seq<PriorityOp>, txs: seq<Tx>)
      modifies this`ready
      ensures Selection(watcher.priorityQueue, first, max, ops)
      ensures Fitting(nonces.Keys, old(ready), max - ChunksOf(ops), |txs|)
      ensures txs + ready == old(ready)
    {
      var room, rest;
      room, ops := SelectPriorityOps(watcher, first, max);
      rest, txs := PrepareTxForBlock(room);
    }
  }
}
