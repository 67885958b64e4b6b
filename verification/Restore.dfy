/** Rebuilding the ledger from the operations published on chain, whose senders,
    nonces, recipients and signatures are missing and refilled from the rebuilt state. */
module Restore {
  import opened Types
  import opened Ledger
  import opened LedgerRuns
  import opened PlasmaStates
  import opened Blocks
  import R = Replay

  // ---------- One operation ----------

  function RestoreOp(s: State, op: FranklinOp): Outcome<Executed> {
    match op
    case NoopOp => Done(Executed(s, [], NoopOp))
    case DepositOp(d, _) => ExecutePriority(s, DepositRequest(d))
    case FullExitOp(e) => ExecutePriority(s, FullExitRequest(e))
    case TransferToNewOp(t, from, to) =>
      if from !in s.accounts then Rejected(NonexistentAccount) else
      var full := t.(from := s.accounts[from].address, nonce := s.accounts[from].nonce);
      WithOp(ApplyTransferToNew(s, full, from, to), TransferToNewOp(full, from, to))
    case WithdrawOp(w, id) =>
      if id !in s.accounts then Rejected(NonexistentAccount) else
      var full := w.(from := s.accounts[id].address, nonce := s.accounts[id].nonce);
      WithOp(ApplyWithdraw(s, full, id), WithdrawOp(full, id))
    case CloseOp(_, id) =>
      if id !in s.accounts then Rejected(NonexistentAccount) else
      var full := Close(s.accounts[id].address, s.accounts[id].nonce);
      WithOp(ApplyClose(s, full, id), CloseOp(full, id))
    case TransferOp(t, from, to) =>
      if from !in s.accounts || to !in s.accounts then Rejected(NonexistentAccount) else
      var full := t.(from := s.accounts[from].address, to := s.accounts[to].address, nonce := s.accounts[from].nonce);
      WithOp(ApplyTransfer(s, full, from, to), TransferOp(full, from, to))
    case ChangePubKeyOp(p, id) =>
      if id !in s.accounts then Rejected(NonexistentAccount) else
      var full := p.(account := s.accounts[id].address, nonce := s.accounts[id].nonce);
      WithOp(ApplyChangePubKey(s, full, id), ChangePubKeyOp(full, id))
  }

  /** `wire` carries what the public data of `op` carries; everything else in it is arbitrary. */
  predicate Carries(wire: FranklinOp, op: FranklinOp) {
    match op
    case NoopOp => wire == NoopOp
    case DepositOp(d, id) => wire.DepositOp? && wire.deposit.(from := d.from) == d && wire.accountId == id
    case TransferToNewOp(t, from, to) =>
      wire.TransferToNewOp? && (wire.from, wire.to, wire.transfer.to, wire.transfer.token) == (from, to, t.to, t.token)
    case WithdrawOp(w, id) =>
      wire.WithdrawOp? && (wire.accountId, wire.withdraw.to, wire.withdraw.token) == (id, w.to, w.token)
    case CloseOp(c, id) => wire.CloseOp? && wire.accountId == id
    case TransferOp(t, from, to) =>
      wire.TransferOp? && (wire.from, wire.to, wire.transfer.token) == (from, to, t.token)
    case FullExitOp(e) => wire == op
    case ChangePubKeyOp(p, id) =>
      wire.ChangePubKeyOp? && (wire.accountId, wire.change.newPubKeyHash) == (id, p.newPubKeyHash)
  }

  /** The operation without what cannot be refilled: signatures, fees and the Ethereum depositor. */
  function Anonymous(op: FranklinOp): FranklinOp {
    match op
    case DepositOp(d, id) => DepositOp(d.(from := 0), id)
    case TransferToNewOp(t, from, to) => TransferToNewOp(t.(accountId := from, fee := 0, signer := None), from, to)
    case WithdrawOp(w, id) => WithdrawOp(w.(accountId := id, fee := 0, signer := None), id)
    case TransferOp(t, from, to) => TransferOp(t.(accountId := from, fee := 0, signer := None), from, to)
    case ChangePubKeyOp(p, id) => ChangePubKeyOp(p.(accountId := id, ethSignature := None), id)
    case _ => op
  }

  lemma RestoreFollowsTransfer(s: State, t: Transfer, wire: FranklinOp)
    requires Inv(s) && ExecuteTransfer(s, t).Done? && Carries(wire, ExecuteTransfer(s, t).value.op)
    ensures var e := ExecuteTransfer(s, t).value;
            var r := RestoreOp(s, wire);
            && r.Done? && r.value.state == e.state && r.value.updates == e.updates
            && Anonymous(r.value.op) == Anonymous(e.op)
  {
    hide Inv, ExecuteTransfer;
    TransferShape(s, t);
  }

  /** Restoring what an executed request published has the same effect, and refills the operation. */
  lemma RestoreFollowsExecution(s: State, item: Item, wire: FranklinOp)
    requires Inv(s) && Execute(s, item).Done? && Carries(wire, Execute(s, item).value.op)
    ensures var e := Execute(s, item).value;
            var r := RestoreOp(s, wire);
            && r.Done? && r.value.state == e.state && r.value.updates == e.updates
            && Anonymous(r.value.op) == Anonymous(e.op)
  {
    match item
    case Priority(PriorityOp(_, DepositRequest(d))) =>
      DepositShape(s, d);
      assert wire.deposit.(from := d.from) == d;
    case Priority(PriorityOp(_, FullExitRequest(_))) =>
    case Transaction(TransferTx(t)) => RestoreFollowsTransfer(s, t, wire);
    case Transaction(WithdrawTx(w)) => WithdrawShape(s, w);
    case Transaction(ChangePubKeyTx(p)) => ChangePubKeyShape(s, p);
  }

  /** The accounts an operation names by id are there to refill it from. */
  predicate Refillable(s: State, op: FranklinOp) {
    match op
    case TransferToNewOp(_, from, _) => from in s.accounts
    case WithdrawOp(_, id) => id in s.accounts
    case CloseOp(_, id) => id in s.accounts
    case TransferOp(_, from, to) => from in s.accounts && to in s.accounts
    case ChangePubKeyOp(_, id) => id in s.accounts
    case _ => true
  }

  /** What a refilled operation still has to meet. */
  predicate Owned(s: State, op: FranklinOp)
    requires Refillable(s, op)
  {
    match op
    case TransferToNewOp(t, from, _) => t.token in s.accounts[from].tokens
    case WithdrawOp(w, id) => w.token in s.accounts[id].tokens
    case CloseOp(_, id) => s.accounts[id].tokens == {}
    case TransferOp(t, from, _) => t.token in s.accounts[from].tokens
    case _ => true
  }

  /** A taken or missing place in the tree, a missing account, or no nonce left. */
  predicate Impossible(s: State, op: FranklinOp)
    requires Refillable(s, op)
  {
    match op
    case DepositOp(d, _) => !HasRoom(s, d.to)
    case FullExitOp(e) => e.accountId !in s.accounts
    case TransferToNewOp(t, from, to) => s.accounts[from].nonce >= MAX_NONCE || to >= CAPACITY
    case WithdrawOp(_, id) => s.accounts[id].nonce >= MAX_NONCE
    case TransferOp(_, from, _) => s.accounts[from].nonce >= MAX_NONCE
    case ChangePubKeyOp(_, id) => s.accounts[id].nonce >= MAX_NONCE
    case _ => false
  }

  /** How restoring any operation ends, whoever published it: refilling fails exactly on a missing account, and no nonce
      or signature ever does. */
  lemma RestoresExactly(s: State, op: FranklinOp)
    requires Inv(s)
    ensures RestoreOp(s, op) == Rejected(NonexistentAccount) <==> !Refillable(s, op)
    ensures Refillable(s, op) ==>
              var taken := op.TransferToNewOp? && op.to in s.accounts;
              && (RestoreOp(s, op).Panicked? <==> taken || (Owned(s, op) && Impossible(s, op)))
              && (RestoreOp(s, op).Rejected? <==> !taken && !Owned(s, op))
              && (RestoreOp(s, op).Rejected? ==>
                    RestoreOp(s, op).reason == if op.CloseOp? then AccountNotEmpty else NotOwner)
  {
    hide Dense, Ascending, ExitUpdates;
    if op.DepositOp? {
      hide ExecuteDeposit;
      DepositExactly(s, op.deposit);
    }
  }

  // ---------- One block ----------

  /** The ledger, the priority operation counter and the contents of the block being rebuilt. */
  datatype Progress = Progress(state: State, unprocessed: nat, updates: Updates, executed: seq<ExecutedOp>)

  function RequestOf(op: FranklinOp): PriorityData
    requires op.IsPriority()
  {
    if op.DepositOp? then DepositRequest(op.deposit) else FullExitRequest(op.exit)
  }

  function TxOf(op: FranklinOp): Tx
    requires !op.IsPriority() && !op.NoopOp?
  {
    match op
    case TransferToNewOp(t, _, _) => TransferTx(t)
    case WithdrawOp(w, _) => WithdrawTx(w)
    case CloseOp(c, _) => CloseTx(c)
    case TransferOp(t, _, _) => TransferTx(t)
    case ChangePubKeyOp(p, _) => ChangePubKeyTx(p)
  }

  /** Priority operations are given serial id 0, which the public data does not carry. */
  function Record(op: FranklinOp, blockIndex: nat): ExecutedOp
    requires !op.NoopOp?
  {
    if op.IsPriority() then ExecutedPriority(PriorityOp(0, RequestOf(op)), op, blockIndex)
    else ExecutedTx(TxOf(op), Success(op, blockIndex))
  }

  lemma RestoreKeepsKind(s: State, op: FranklinOp)
    requires RestoreOp(s, op).Done?
    ensures RestoreOp(s, op).value.op.NoopOp? <==> op.NoopOp?
    ensures RestoreOp(s, op).value.op.IsPriority() <==> op.IsPriority()
  {
  }

  function RestoreStep(p: Progress, op: FranklinOp): Outcome<Progress> {
    if op.NoopOp? then Done(p) else
    match RestoreOp(p.state, op)
    case Rejected(e) => Rejected(e)
    case Panicked => Panicked
    case Done(e) =>
      RestoreKeepsKind(p.state, op);
      Done(Progress(e.state, p.unprocessed + (if op.IsPriority() then 1 else 0), p.updates + e.updates,
                    p.executed + [Record(e.op, |p.executed|)]))
  }

  function RestoreOps(p: Progress, ops: seq<FranklinOp>): Outcome<Progress> {
    if ops == [] then Done(p) else
    match RestoreOps(p, ops[..|ops| - 1])
    case Done(q) => RestoreStep(q, ops[|ops| - 1])
    case Rejected(e) => Rejected(e)
    case Panicked => Panicked
  }

  lemma {:induction false} FailureStops(p: Progress, ops: seq<FranklinOp>, k: nat)
    requires k <= |ops| && !RestoreOps(p, ops[..k]).Done?
    ensures RestoreOps(p, ops) == RestoreOps(p, ops[..k])
    decreases |ops| - k
  {
    if k == |ops| {
      assert ops[..k] == ops;
    } else {
      assert ops[..k + 1][..k] == ops[..k];
      FailureStops(p, ops, k + 1);
    }
  }

  datatype Tree = Tree(state: State, blockNumber: nat, unprocessed: nat)
  datatype Restored = Restored(tree: Tree, block: Block, updates: Updates)

  function RestoreBlock(t: Tree, number: nat, ops: seq<FranklinOp>, feeAccount: AccountId, sizes: seq<nat>)
    : Outcome<Restored>
  {
    match RestoreOps(Progress(t.state, t.unprocessed, [], []), ops)
    case Rejected(e) => Rejected(e)
    case Panicked => Panicked
    case Done(p) =>
      if feeAccount !in p.state.accounts then Rejected(NonexistentAccount) else
      var size := FirstFit(ChunksUsed(p.executed), sizes);
      if size.None? then Panicked else
      Done(Restored(
        Tree(p.state, t.blockNumber + 1, p.unprocessed),
        Block(number, p.state, feeAccount, p.executed, (t.unprocessed, p.unprocessed), size.value),
        p.updates))
  }

  /** The restorer's own state. A failed block aborts its driver, so nothing is read afterwards. */
  class TreeState {
    const state: PlasmaState
    const sizes: seq<nat>
    var unprocessed: nat
    var lastFeeAddress: Address

    ghost function Contents(): Tree
      reads this, state
    {
      Tree(state.Contents(), state.blockNumber, unprocessed)
    }

    constructor (state: PlasmaState, unprocessed: nat, feeAccount: AccountId, sizes: seq<nat>)
      requires feeAccount in state.accounts
      ensures this.state == state && this.sizes == sizes && this.unprocessed == unprocessed
      ensures lastFeeAddress == state.accounts[feeAccount].address
    {
      this.state, this.unprocessed, this.sizes := state, unprocessed, sizes;
      lastFeeAddress := state.accounts[feeAccount].address;
    }

    /** Refill one published operation and apply it. */
    method ApplyPublished(op: FranklinOp) returns (r: Outcome<OpSuccess>)
      requires !op.NoopOp?
      modifies state`accounts, state`index
      ensures AgreesOp(RestoreOp(old(state.Contents()), op), old(state.Contents()), state.Contents(), r)
    {
      match op
      case DepositOp(d, _) => r := state.ExecutePriorityOp(DepositRequest(d));
      case FullExitOp(e) => r := state.ExecutePriorityOp(FullExitRequest(e));
      case TransferToNewOp(t, from, to) =>
        if from !in state.accounts {
          return Rejected(NonexistentAccount);
        }
        var full := t.(from := state.accounts[from].address);
        full := full.(nonce := state.accounts[from].nonce);
        var updates := state.ApplyTransferToNewOp(full, from, to);
        r := Named(updates, TransferToNewOp(full, from, to));
      case WithdrawOp(w, id) =>
        if id !in state.accounts {
          return Rejected(NonexistentAccount);
        }
        var full := w.(from := state.accounts[id].address);
        full := full.(nonce := state.accounts[id].nonce);
        var updates := state.ApplyWithdrawOp(full, id);
        r := Named(updates, WithdrawOp(full, id));
      case CloseOp(_, id) =>
        if id !in state.accounts {
          return Rejected(NonexistentAccount);
        }
        var full := Close(state.accounts[id].address, state.accounts[id].nonce);
        var updates := state.ApplyCloseOp(full, id);
        r := Named(updates, CloseOp(full, id));
      case TransferOp(t, from, to) =>
        if from !in state.accounts || to !in state.accounts {
          return Rejected(NonexistentAccount);
        }
        var full := t.(from := state.accounts[from].address);
        full := full.(to := state.accounts[to].address);
        full := full.(nonce := state.accounts[from].nonce);
        var updates := state.ApplyTransferOp(full, from, to);
        r := Named(updates, TransferOp(full, from, to));
      case ChangePubKeyOp(p, id) =>
        if id !in state.accounts {
          return Rejected(NonexistentAccount);
        }
        var full := p.(account := state.accounts[id].address);
        full := full.(nonce := state.accounts[id].nonce);
        var updates := state.ApplyChangePubKeyOp(full, id);
        r := Named(updates, ChangePubKeyOp(full, id));
    }

    method UpdateTreeStatesFromOpsBlock(number: nat, ops: seq<FranklinOp>, feeAccount: AccountId)
      returns (r: Outcome<(Block, Updates)>)
      modifies this, state
      ensures match RestoreBlock(old(Contents()), number, ops, feeAccount, sizes)
              case Done(d) =>
                && r == Done((d.block, d.updates)) && Contents() == d.tree
                && lastFeeAddress == d.tree.state.accounts[feeAccount].address
              case Rejected(e) => r == Rejected(e)
              case Panicked => r == Panicked
    {
      hide RestoreOp;
      var updates: Updates := [];
      var executed: seq<ExecutedOp> := [];
      var opIndex := 0;
      var before := unprocessed;
      ghost var start := Progress(state.Contents(), unprocessed, [], []);
      var i := 0;
      while i < |ops|
        invariant 0 <= i <= |ops| && opIndex == |executed|
        invariant RestoreOps(start, ops[..i]) == Done(Progress(state.Contents(), unprocessed, updates, executed))
        invariant state.blockNumber == old(state.blockNumber)
      {
        assert ops[..i + 1][..i] == ops[..i];
        if !ops[i].NoopOp? {
          ghost var was := state.Contents();
          var result := ApplyPublished(ops[i]);
          if !result.Done? {
            FailureStops(start, ops, i + 1);
            return if result.Rejected? then Rejected(result.reason) else Panicked;
          }
          RestoreKeepsKind(was, ops[i]);
          updates := updates + result.value.updates;
          executed := executed + [Record(result.value.op, opIndex)];
          if ops[i].IsPriority() {
            unprocessed := unprocessed + 1;
          }
          opIndex := opIndex + 1;
        }
        i := i + 1;
      }
      assert ops[..i] == ops;
      if feeAccount !in state.accounts {
        return Rejected(NonexistentAccount);
      }
      var feeUpdates := state.CollectFee(feeAccount);
      assert updates + feeUpdates.value == updates;
      updates := updates + feeUpdates.value;
      lastFeeAddress := state.accounts[feeAccount].address;
      var size := SmallestBlockSize(ChunksUsed(executed), sizes);
      if size.None? {
        return Panicked;
      }
      var block := Block(number, State(state.accounts, state.index), feeAccount, executed, (before, unprocessed),
                         size.value);
      state.blockNumber := state.blockNumber + 1;
      r := Done((block, updates));
    }
  }

  // ---------- Restoring a run ----------

  function Ops(done: seq<Effect>): seq<FranklinOp> {
    seq(|done|, i requires 0 <= i < |done| => done[i].op)
  }

  function WithoutNoops(ops: seq<FranklinOp>): seq<FranklinOp> {
    if ops == [] then [] else
    WithoutNoops(ops[..|ops| - 1]) + if ops[|ops| - 1].NoopOp? then [] else [ops[|ops| - 1]]
  }

  predicate AllCarry(wires: seq<FranklinOp>, ops: seq<FranklinOp>) {
    |wires| == |ops| && forall i | 0 <= i < |ops| :: Carries(wires[i], ops[i])
  }

  function PriorityOpsIn(ops: seq<FranklinOp>): nat {
    if ops == [] then 0 else PriorityOpsIn(ops[..|ops| - 1]) + if ops[|ops| - 1].IsPriority() then 1 else 0
  }

  /** What the rebuilt block records: the same operations in the same places. */
  predicate SameOps(executed: seq<ExecutedOp>, ops: seq<FranklinOp>) {
    |executed| == |ops| &&
    forall i | 0 <= i < |ops| ::
      && |executed[i].Ops()| == 1 && !executed[i].Ops()[0].NoopOp?
      && Anonymous(executed[i].Ops()[0]) == Anonymous(ops[i])
      && executed[i] == Record(executed[i].Ops()[0], i)
  }

  /** The restorer has caught up with a run that started with `unprocessed` priority operations behind it. */
  ghost predicate CaughtUp(p: Progress, state: State, done: seq<Effect>, unprocessed: nat) {
    && p.state == state
    && p.unprocessed == unprocessed + PriorityOpsIn(Ops(done))
    && p.updates == R.Log(done)
    && SameOps(p.executed, Ops(done))
  }

  lemma CarriesKeepsKind(wire: FranklinOp, op: FranklinOp)
    requires Carries(wire, op)
    ensures (wire.NoopOp? <==> op.NoopOp?) && (wire.IsPriority() <==> op.IsPriority())
  {
  }

  lemma SameOpsMore(executed: seq<ExecutedOp>, ops: seq<FranklinOp>, rebuilt: FranklinOp, op: FranklinOp)
    requires SameOps(executed, ops) && !rebuilt.NoopOp? && Anonymous(rebuilt) == Anonymous(op)
    ensures SameOps(executed + [Record(rebuilt, |ops|)], ops + [op])
  {
    hide Anonymous;
  }

  lemma SameOpsLength(executed: seq<ExecutedOp>, ops: seq<FranklinOp>)
    requires SameOps(executed, ops)
    ensures |executed| == |ops|
  {
  }

  lemma DoneMore(done: seq<Effect>, e: Effect)
    ensures Ops(done + [e]) == Ops(done) + [e.op] && R.Log(done + [e]) == R.Log(done) + e.updates
    ensures PriorityOpsIn(Ops(done + [e])) == PriorityOpsIn(Ops(done)) + if e.op.IsPriority() then 1 else 0
  {
    assert (done + [e])[..|done|] == done;
    assert (Ops(done) + [e.op])[..|done|] == Ops(done);
  }

  lemma RestoreStepCatchesUp(p: Progress, r: Run, unprocessed: nat, item: Item, wire: FranklinOp)
    requires CaughtUp(p, r.state, r.done, unprocessed) && Inv(r.state)
    requires !r.halted && Execute(r.state, item).Done?
    requires !wire.NoopOp? && Carries(wire, Execute(r.state, item).value.op)
    ensures RestoreStep(p, wire).Done?
    ensures CaughtUp(RestoreStep(p, wire).value, Step(r, item).state, Step(r, item).done, unprocessed)
  {
    hide Inv, Execute, RestoreOp, Carries, Anonymous, SameOps, Record, R.Log, Ops, PriorityOpsIn;
    var e := Execute(r.state, item).value;
    RestoreFollowsExecution(r.state, item, wire);
    RestoreKeepsKind(r.state, wire);
    CarriesKeepsKind(wire, e.op);
    DoneMore(r.done, Effect(item, e.op, e.updates));
    assert |p.executed| == |Ops(r.done)| by { SameOpsLength(p.executed, Ops(r.done)); }
    SameOpsMore(p.executed, Ops(r.done), RestoreOp(r.state, wire).value.op, e.op);
  }

  /** From the ledger a run started in, restoring what it published, padded with no-ops anywhere,
      ends in the run's ledger with the run's updates and the run's count of priority operations. */
  lemma {:induction false} RestoreFollowsRun(s: State, items: seq<Item>, unprocessed: nat, wires: seq<FranklinOp>)
    requires Inv(s) && AllCarry(WithoutNoops(wires), Ops(RunAll(s, items).done))
    ensures var p, r := RestoreOps(Progress(s, unprocessed, [], []), wires), RunAll(s, items);
            p.Done? && CaughtUp(p.value, r.state, r.done, unprocessed)
    decreases |items|, |wires|
  {
    var start := Progress(s, unprocessed, [], []);
    if wires != [] && wires[|wires| - 1].NoopOp? {
      hide CaughtUp, RestoreOp, Ops;
      RestoreFollowsRun(s, items, unprocessed, wires[..|wires| - 1]);
    } else if items != [] {
      hide CaughtUp, Inv, Extends, Execute, RestoreStep, Carries;
      var before, last := RunAll(s, items[..|items| - 1]), items[|items| - 1];
      if before.halted || !Execute(before.state, last).Done? {
        assert RunAll(s, items).done == before.done;
        RestoreFollowsRun(s, items[..|items| - 1], unprocessed, wires);
      } else {
        var done := RunAll(s, items).done;
        var wire := wires[|wires| - 1];
        assert Ops(done)[..|before.done|] == Ops(before.done);
        assert WithoutNoops(wires)[|before.done|] == wire;
        assert WithoutNoops(wires[..|wires| - 1]) == WithoutNoops(wires)[..|before.done|];
        assert Ops(done)[|before.done|] == Execute(before.state, last).value.op;
        RestoreFollowsRun(s, items[..|items| - 1], unprocessed, wires[..|wires| - 1]);
        RunKeepsInv(s, items[..|items| - 1]);
        RestoreStepCatchesUp(RestoreOps(start, wires[..|wires| - 1]).value, before, unprocessed, last, wire);
      }
    }
  }
}
