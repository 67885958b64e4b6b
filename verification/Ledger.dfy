/** The account ledger as a value, and what each operation does to it.
    The class `PlasmaState` is proved against these functions. */
module Ledger {
  import opened Types

  datatype Reason =
    | UnsupportedToken | NoSender | Locked | BadSignature | WrongAccountId
    | NonceMismatch | NotOwner | ClosingDisabled | AccountNotEmpty | NonexistentAccount | BadPublicData

  /** The three ways a call can end: a result, an error returned to the caller, or an abort. */
  datatype Outcome<+T> = Done(value: T) | Rejected(reason: Reason) | Panicked

  /** `index` caches the account id of every address. */
  datatype State = State(accounts: map<AccountId, Account>, index: map<Address, AccountId>)

  datatype Applied = Applied(state: State, updates: Updates)
  datatype Executed = Executed(state: State, updates: Updates, op: FranklinOp)

  /** What a component asks the ledger to execute. */
  datatype Item = Priority(request: PriorityOp) | Transaction(tx: Tx)

  // ---------- Accounts ----------

  function Insert(s: State, id: AccountId, account: Account): State {
    State(s.accounts[id := account], s.index[account.address := id])
  }

  function Remove(s: State, id: AccountId): State {
    if id in s.accounts then State(s.accounts - {id}, s.index - {s.accounts[id].address}) else s
  }

  function WithToken(account: Account, token: TokenId): Account {
    account.(tokens := account.tokens + {token})
  }

  /** The account once it has given a token away. */
  function Spent(account: Account, token: TokenId): Account {
    account.(nonce := account.nonce + 1, tokens := account.tokens - {token})
  }

  /** Lookup through the index; an index entry that names no account aborts. */
  function ByAddress(s: State, address: Address): Outcome<Option<AccountId>> {
    if address !in s.index then Done(None)
    else if s.index[address] in s.accounts then Done(Some(s.index[address]))
    else Panicked
  }

  predicate IsMin(s: set<nat>, m: nat) {
    m in s && forall x | x in s :: m <= x
  }

  lemma {:induction false} MinExists(s: set<nat>, from: nat, some: nat)
    requires some in s && forall x | x in s :: from <= x
    ensures exists m :: IsMin(s, m)
    decreases some - from
  {
    if from in s {
      assert IsMin(s, from);
    } else {
      MinExists(s, from + 1, some);
    }
  }

  function Min(s: set<nat>): (m: nat)
    requires s != {}
    ensures IsMin(s, m)
  {
    assert exists m :: IsMin(s, m) by {
      var some :| some in s;
      MinExists(s, 0, some);
    }
    var m :| IsMin(s, m);
    m
  }

  /** The elements of a set in ascending order, the order in which a B-tree set yields them. */
  function Ascending(s: set<nat>): (q: seq<nat>)
    ensures |q| == |s|
    ensures forall x :: x in q <==> x in s
    ensures forall i, j | 0 <= i < j < |q| :: q[i] < q[j]
  {
    if s == {} then [] else [Min(s)] + Ascending(s - {Min(s)})
  }

  // ---------- Operations on accounts named by id ----------

  function ApplyDeposit(s: State, d: Deposit, id: AccountId): Outcome<Applied> {
    var isNew := id !in s.accounts;
    if isNew && id >= CAPACITY then Panicked else
    var account := if isNew then NewAccount(d.to) else s.accounts[id];
    var created: Updates := if isNew then [(id, Create(d.to, 0))] else [];
    Done(Applied(
      Insert(s, id, WithToken(account, d.token)),
      created + [(id, AddToken(account.nonce, account.nonce, d.token))]))
  }

  /** One removal per token held, none of them moving the nonce. */
  function ExitUpdates(id: AccountId, nonce: nat, tokens: seq<TokenId>): (us: Updates)
  {
    seq(|tokens|, i requires 0 <= i < |tokens| => (id, RemoveToken(nonce, nonce, tokens[i])))
  }

  function ApplyFullExit(s: State, id: AccountId): Outcome<Applied> {
    if id !in s.accounts then Panicked else
    var account := s.accounts[id];
    Done(Applied(
      Insert(s, id, account.(tokens := {})),
      ExitUpdates(id, account.nonce, Ascending(account.tokens))))
  }

  /** The checks shared by every operation that spends a nonce. */
  function SpendNonce(account: Account, nonce: nat): Outcome<Account> {
    if nonce != account.nonce then Rejected(NonceMismatch)
    else if account.nonce >= MAX_NONCE then Panicked
    else Done(account.(nonce := account.nonce + 1))
  }

  /** The checks shared by every operation that spends a token: the nonce first, then ownership. */
  function SpendToken(account: Account, nonce: nat, token: TokenId): Outcome<Account> {
    if nonce != account.nonce then Rejected(NonceMismatch)
    else if token !in account.tokens then Rejected(NotOwner)
    else if account.nonce >= MAX_NONCE then Panicked
    else Done(Spent(account, token))
  }

  function ApplyTransferToNew(s: State, t: Transfer, from: AccountId, to: AccountId): Outcome<Applied> {
    if to in s.accounts || from !in s.accounts then Panicked else
    match SpendToken(s.accounts[from], t.nonce, t.token)
    case Rejected(r) => Rejected(r)
    case Panicked => Panicked
    case Done(spent) =>
      if to >= CAPACITY then Panicked else
      Done(Applied(
        Insert(Insert(s, from, spent), to, WithToken(NewAccount(t.to), t.token)),
        [ (to, Create(t.to, 0)),
          (from, RemoveToken(spent.nonce - 1, spent.nonce, t.token)),
          (to, AddToken(0, 0, t.token))]))
  }

  function ApplyTransfer(s: State, t: Transfer, from: AccountId, to: AccountId): Outcome<Applied> {
    if from == to then ApplyTransferToSelf(s, t, from) else
    if from !in s.accounts || to !in s.accounts then Panicked else
    match SpendToken(s.accounts[from], t.nonce, t.token)
    case Rejected(r) => Rejected(r)
    case Panicked => Panicked
    case Done(spent) =>
      var target := s.accounts[to];
      Done(Applied(
        Insert(Insert(s, from, spent), to, WithToken(target, t.token)),
        [ (from, RemoveToken(spent.nonce - 1, spent.nonce, t.token)),
          (to, AddToken(target.nonce, target.nonce, t.token))]))
  }

  /** Spends the nonce, keeps the token and logs nothing. */
  function ApplyTransferToSelf(s: State, t: Transfer, id: AccountId): Outcome<Applied> {
    if id !in s.accounts then Panicked else
    match SpendToken(s.accounts[id], t.nonce, t.token)
    case Rejected(r) => Rejected(r)
    case Panicked => Panicked
    case Done(spent) => Done(Applied(Insert(s, id, s.accounts[id].(nonce := spent.nonce)), []))
  }

  function ApplyWithdraw(s: State, w: Withdraw, id: AccountId): Outcome<Applied> {
    if id !in s.accounts then Panicked else
    match SpendToken(s.accounts[id], w.nonce, w.token)
    case Rejected(r) => Rejected(r)
    case Panicked => Panicked
    case Done(spent) =>
      Done(Applied(Insert(s, id, spent), [(id, RemoveToken(spent.nonce - 1, spent.nonce, w.token))]))
  }

  function ApplyChangePubKey(s: State, p: ChangePubKey, id: AccountId): Outcome<Applied> {
    if id !in s.accounts then Panicked else
    var account := s.accounts[id];
    match SpendNonce(account, p.nonce)
    case Rejected(r) => Rejected(r)
    case Panicked => Panicked
    case Done(spent) =>
      Done(Applied(
        Insert(s, id, spent.(pubKeyHash := p.newPubKeyHash)),
        [(id, ChangePubKeyHash(account.pubKeyHash, p.newPubKeyHash, account.nonce, spent.nonce))]))
  }

  /** Reached only by the data restorer: the server refuses to close accounts. */
  function ApplyClose(s: State, c: Close, id: AccountId): Outcome<Applied> {
    if id !in s.accounts then Panicked else
    var account := s.accounts[id];
    if account.tokens != {} then Rejected(AccountNotEmpty)
    else if c.nonce != account.nonce then Rejected(NonceMismatch)
    else Done(Applied(Remove(s, id), [(id, Delete(account.address, account.nonce))]))
  }

  // ---------- Execution of requests ----------

  function WithOp(o: Outcome<Applied>, op: FranklinOp): Outcome<Executed> {
    match o
    case Done(a) => Done(Executed(a.state, a.updates, op))
    case Rejected(r) => Rejected(r)
    case Panicked => Panicked
  }

  function ExecuteDeposit(s: State, d: Deposit): Outcome<Executed> {
    match ByAddress(s, d.to)
    case Rejected(r) => Rejected(r)
    case Panicked => Panicked
    case Done(found) =>
      var id := if found.Some? then found.value else |s.accounts|;
      WithOp(ApplyDeposit(s, d, id), DepositOp(d, id))
  }

  function ExecutePriority(s: State, data: PriorityData): Outcome<Executed> {
    match data
    case DepositRequest(d) => ExecuteDeposit(s, d)
    case FullExitRequest(e) => WithOp(ApplyFullExit(s, e.accountId), FullExitOp(e))
  }

  /** The sender's account, once it exists, is unlocked, has signed and is the one named. */
  function Authorize(s: State, from: Address, accountId: AccountId, signer: Option<PubKeyHash>): Outcome<AccountId> {
    match ByAddress(s, from)
    case Rejected(r) => Rejected(r)
    case Panicked => Panicked
    case Done(None) => Rejected(NoSender)
    case Done(Some(id)) =>
      if s.accounts[id].pubKeyHash == NO_PUB_KEY then Rejected(Locked)
      else if signer != Some(s.accounts[id].pubKeyHash) then Rejected(BadSignature)
      else if id != accountId then Rejected(WrongAccountId)
      else Done(id)
  }

  function ExecuteTransfer(s: State, t: Transfer): Outcome<Executed> {
    if t.token >= TOTAL_TOKENS then Rejected(UnsupportedToken) else
    match Authorize(s, t.from, t.accountId, t.signer)
    case Rejected(r) => Rejected(r)
    case Panicked => Panicked
    case Done(from) =>
      match ByAddress(s, t.to)
      case Rejected(r) => Rejected(r)
      case Panicked => Panicked
      case Done(Some(to)) => WithOp(ApplyTransfer(s, t, from, to), TransferOp(t, from, to))
      case Done(None) =>
        var to := |s.accounts|;
        WithOp(ApplyTransferToNew(s, t, from, to), TransferToNewOp(t, from, to))
  }

  function ExecuteWithdraw(s: State, w: Withdraw): Outcome<Executed> {
    if w.token >= TOTAL_TOKENS then Rejected(UnsupportedToken) else
    match Authorize(s, w.from, w.accountId, w.signer)
    case Rejected(r) => Rejected(r)
    case Panicked => Panicked
    case Done(id) => WithOp(ApplyWithdraw(s, w, id), WithdrawOp(w, id))
  }

  function ExecuteChangePubKey(s: State, p: ChangePubKey): Outcome<Executed> {
    match ByAddress(s, p.account)
    case Rejected(r) => Rejected(r)
    case Panicked => Panicked
    case Done(None) => Rejected(NoSender)
    case Done(Some(id)) =>
      if p.ethSignature.Some? && p.ethSignature.value != Some(s.accounts[id].address) then Rejected(BadSignature)
      else if id != p.accountId then Rejected(WrongAccountId)
      else WithOp(ApplyChangePubKey(s, p, id), ChangePubKeyOp(p, id))
  }

  function ExecuteTx(s: State, tx: Tx): Outcome<Executed> {
    match tx
    case TransferTx(t) => ExecuteTransfer(s, t)
    case WithdrawTx(w) => ExecuteWithdraw(s, w)
    case CloseTx(_) => Rejected(ClosingDisabled)
    case ChangePubKeyTx(p) => ExecuteChangePubKey(s, p)
  }

  function Execute(s: State, item: Item): Outcome<Executed> {
    match item
    case Priority(p) => ExecutePriority(s, p.data)
    case Transaction(tx) => ExecuteTx(s, tx)
  }
}
