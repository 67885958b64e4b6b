/** Nonce discipline: over every run, the transactions an address gets executed
    carry consecutive nonces, so none of them is ever executed twice. */
module Nonces {
  import opened Types
  import opened Ledger
  import opened LedgerRuns

  /** The next nonce of an address; one without an account would start at 0. */
  function NonceOf(s: State, address: Address): nat {
    if address in s.index && s.index[address] in s.accounts then s.accounts[s.index[address]].nonce else 0
  }

  predicate SentBy(item: Item, address: Address) {
    item.Transaction? && item.tx.Sender() == address
  }

  /** Writing an account with the invariant in force moves only the nonce of its own address. */
  lemma WriteNonce(s: State, id: AccountId, account: Account, address: Address)
    requires Inv(s) && id <= |s.accounts|
    requires if id in s.accounts then account.address == s.accounts[id].address else account.address !in s.index
    ensures NonceOf(Insert(s, id, account), address) ==
            if address == account.address then account.nonce else NonceOf(s, address)
  {
  }

  lemma TransferSpendsNonce(s: State, t: Transfer, address: Address)
    requires Inv(s) && ExecuteTransfer(s, t).Done?
    ensures t.nonce == NonceOf(s, t.from)
    ensures NonceOf(ExecuteTransfer(s, t).value.state, address) ==
            NonceOf(s, address) + if t.from == address then 1 else 0
  {
    hide Inv, ExecuteTransfer, Extends;
    TransferShape(s, t);
    var from, to := s.index[t.from], Slot(s, t.to);
    var account := s.accounts[from];
    DenseSlot(s, from);
    if t.to == t.from {
      WriteNonce(s, from, account.(nonce := account.nonce + 1), address);
    } else {
      var paid := Insert(s, from, Spent(account, t.token));
      WriteNonce(s, from, Spent(account, t.token), address);
      WriteKeepsInv(s, from, Spent(account, t.token));
      var target := if t.to in s.index then s.accounts[to] else NewAccount(t.to);
      DenseSlot(paid, to);
      WriteNonce(paid, to, WithToken(target, t.token), address);
    }
  }

  lemma DenseSlot(s: State, id: AccountId)
    requires Inv(s) && (id in s.accounts || id == |s.accounts|)
    ensures id <= |s.accounts|
    ensures id in s.accounts ==> NonceOf(s, s.accounts[id].address) == s.accounts[id].nonce
  {
  }

  /** An executed transaction spends its sender's next nonce and touches no other; priority operations touch none. */
  lemma ExecuteSpendsNonce(s: State, item: Item, address: Address)
    requires Inv(s) && Execute(s, item).Done?
    ensures item.Transaction? ==> item.tx.Nonce() == NonceOf(s, item.tx.Sender())
    ensures NonceOf(Execute(s, item).value.state, address) ==
            NonceOf(s, address) + if SentBy(item, address) then 1 else 0
  {
    hide Inv, ExecuteDeposit, ExecuteTransfer, ExecuteWithdraw, ExecuteChangePubKey;
    match item
    case Priority(PriorityOp(_, DepositRequest(d))) =>
      DepositShape(s, d);
      var account := if d.to in s.index then s.accounts[Slot(s, d.to)] else NewAccount(d.to);
      DenseSlot(s, Slot(s, d.to));
      WriteNonce(s, Slot(s, d.to), WithToken(account, d.token), address);
    case Priority(PriorityOp(_, FullExitRequest(e))) =>
      DenseSlot(s, e.accountId);
      WriteNonce(s, e.accountId, s.accounts[e.accountId].(tokens := {}), address);
    case Transaction(TransferTx(t)) =>
      TransferSpendsNonce(s, t, address);
    case Transaction(WithdrawTx(w)) =>
      WithdrawShape(s, w);
      DenseSlot(s, s.index[w.from]);
      WriteNonce(s, s.index[w.from], Spent(s.accounts[s.index[w.from]], w.token), address);
    case Transaction(ChangePubKeyTx(p)) =>
      ChangePubKeyShape(s, p);
      var account := s.accounts[s.index[p.account]];
      DenseSlot(s, s.index[p.account]);
      WriteNonce(s, s.index[p.account],
                 account.(nonce := account.nonce + 1, pubKeyHash := p.newPubKeyHash), address);
  }

  /** The nonces of the executed transactions of one address, in execution order. */
  function SentNonces(done: seq<Effect>, address: Address): seq<nat> {
    if done == [] then [] else
    var last := done[|done| - 1].item;
    SentNonces(done[..|done| - 1], address) + if SentBy(last, address) then [last.tx.Nonce()] else []
  }

  function Interval(lo: nat, hi: nat): seq<nat>
    requires lo <= hi
  {
    seq(hi - lo, i => lo + i)
  }

  lemma StepSpendsNonce(r: Run, item: Item, address: Address)
    requires Inv(r.state)
    ensures NonceOf(r.state, address) <= NonceOf(Step(r, item).state, address)
    ensures SentNonces(Step(r, item).done, address) ==
            SentNonces(r.done, address) + Interval(NonceOf(r.state, address), NonceOf(Step(r, item).state, address))
  {
    if !r.halted && Execute(r.state, item).Done? {
      ExecuteSpendsNonce(r.state, item, address);
      assert Step(r, item).done[..|r.done|] == r.done;
    }
  }

  lemma {:induction false} NoncesAreConsecutive(s: State, items: seq<Item>, address: Address)
    requires Inv(s)
    ensures NonceOf(s, address) <= NonceOf(RunAll(s, items).state, address)
    ensures SentNonces(RunAll(s, items).done, address) ==
            Interval(NonceOf(s, address), NonceOf(RunAll(s, items).state, address))
  {
    hide Step, Inv, Extends, NonceOf;
    if items != [] {
      NoncesAreConsecutive(s, items[..|items| - 1], address);
      RunKeepsInv(s, items[..|items| - 1]);
      StepSpendsNonce(RunAll(s, items[..|items| - 1]), items[|items| - 1], address);
    }
  }

  /** Of two executed transactions of one sender the later has the greater nonce. */
  lemma {:induction false} NoTransactionTwice(s: State, items: seq<Item>, i: nat, j: nat)
    requires Inv(s)
    requires i < j < |RunAll(s, items).done|
    requires RunAll(s, items).done[i].item.Transaction?
    requires SentBy(RunAll(s, items).done[j].item, RunAll(s, items).done[i].item.tx.Sender())
    ensures RunAll(s, items).done[i].item.tx.Nonce() < RunAll(s, items).done[j].item.tx.Nonce()
    ensures RunAll(s, items).done[i].item != RunAll(s, items).done[j].item
  {
    var last := items[|items| - 1];
    var before := RunAll(s, items[..|items| - 1]);
    RunKeepsInv(s, items[..|items| - 1]);
    if j < |before.done| {
      NoTransactionTwice(s, items[..|items| - 1], i, j);
    } else {
      SpentNonceIsPast(s, items[..|items| - 1], i);
      ExecuteSpendsNonce(before.state, last, last.tx.Sender());
    }
  }

  lemma {:induction false} SpentNonceIsPast(s: State, items: seq<Item>, i: nat)
    requires Inv(s)
    requires i < |RunAll(s, items).done|
    requires RunAll(s, items).done[i].item.Transaction?
    ensures RunAll(s, items).done[i].item.tx.Nonce() <
            NonceOf(RunAll(s, items).state, RunAll(s, items).done[i].item.tx.Sender())
  {
    var last := items[|items| - 1];
    var before := RunAll(s, items[..|items| - 1]);
    RunKeepsInv(s, items[..|items| - 1]);
    var sender := RunAll(s, items).done[i].item.tx.Sender();
    if !before.halted && Execute(before.state, last).Done? {
      ExecuteSpendsNonce(before.state, last, sender);
    }
    if i < |before.done| {
      SpentNonceIsPast(s, items[..|items| - 1], i);
    }
  }
}
