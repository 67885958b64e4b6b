/** The values exchanged by the rollup's components: accounts, account updates,
    transactions, priority operations and the operations they execute as. */
module Types {

  datatype Option<+T> = None | Some(value: T)

  type AccountId = nat
  type Address = nat
  type TokenId = nat
  type PubKeyHash = nat

  /** `PubKeyHash::default()`: an account holding it is locked. */
  const NO_PUB_KEY: PubKeyHash := 0

  /** `params::total_tokens()`, for a token tree of depth 8. */
  const TOTAL_TOKENS: nat := 256

  /** Capacity of an account tree of depth 24. */
  const CAPACITY: nat := 0x100_0000

  const MAX_NONCE: nat := 0xFFFF_FFFF

  datatype Account = Account(address: Address, nonce: nat, pubKeyHash: PubKeyHash, tokens: set<TokenId>)

  function NewAccount(address: Address): Account {
    Account(address, 0, NO_PUB_KEY, {})
  }

  datatype AccountUpdate =
    | Create(address: Address, nonce: nat)
    | Delete(address: Address, nonce: nat)
    | AddToken(oldNonce: nat, newNonce: nat, token: TokenId)
    | RemoveToken(oldNonce: nat, newNonce: nat, token: TokenId)
    | ChangePubKeyHash(oldPubKeyHash: PubKeyHash, newPubKeyHash: PubKeyHash, oldNonce: nat, newNonce: nat)

  type Updates = seq<(AccountId, AccountUpdate)>

  /** `signer` is what `verify_signature` returns: the key hash that signed, if the signature is valid. */
  datatype Transfer = Transfer(
    accountId: AccountId, from: Address, to: Address, token: TokenId, fee: nat, nonce: nat,
    signer: Option<PubKeyHash>)

  datatype Withdraw = Withdraw(
    accountId: AccountId, from: Address, to: Address, token: TokenId, fee: nat, nonce: nat,
    signer: Option<PubKeyHash>)

  datatype Close = Close(account: Address, nonce: nat)

  /** `ethSignature` is None when absent, and otherwise holds the address recovered from it, if any. */
  datatype ChangePubKey = ChangePubKey(
    accountId: AccountId, account: Address, newPubKeyHash: PubKeyHash, nonce: nat,
    ethSignature: Option<Option<Address>>)

  datatype Tx =
    | TransferTx(transfer: Transfer)
    | WithdrawTx(withdraw: Withdraw)
    | CloseTx(close: Close)
    | ChangePubKeyTx(change: ChangePubKey)
  {
    function Sender(): Address {
      match this
      case TransferTx(t) => t.from
      case WithdrawTx(w) => w.from
      case CloseTx(c) => c.account
      case ChangePubKeyTx(p) => p.account
    }

    function Nonce(): nat {
      match this
      case TransferTx(t) => t.nonce
      case WithdrawTx(w) => w.nonce
      case CloseTx(c) => c.nonce
      case ChangePubKeyTx(p) => p.nonce
    }
  }

  datatype Deposit = Deposit(from: Address, token: TokenId, to: Address)
  datatype FullExit = FullExit(accountId: AccountId, ethAddress: Address)

  datatype PriorityData =
    | DepositRequest(deposit: Deposit)
    | FullExitRequest(exit: FullExit)

  datatype PriorityOp = PriorityOp(serialId: nat, data: PriorityData)

  datatype FranklinOp =
    | NoopOp
    | DepositOp(deposit: Deposit, accountId: AccountId)
    | TransferToNewOp(transfer: Transfer, from: AccountId, to: AccountId)
    | WithdrawOp(withdraw: Withdraw, accountId: AccountId)
    | CloseOp(close: Close, accountId: AccountId)
    | TransferOp(transfer: Transfer, from: AccountId, to: AccountId)
    | FullExitOp(exit: FullExit)
    | ChangePubKeyOp(change: ChangePubKey, accountId: AccountId)
  {
    /** Block space taken, in chunks of 8 bytes of public data. */
    function Chunks(): nat {
      match this
      case NoopOp => 1
      case DepositOp(_, _) => 6
      case TransferToNewOp(_, _, _) => 5
      case WithdrawOp(_, _) => 6
      case CloseOp(_, _) => 1
      case TransferOp(_, _, _) => 2
      case FullExitOp(_) => 6
      case ChangePubKeyOp(_, _) => 6
    }

    predicate IsPriority() {
      DepositOp? || FullExitOp?
    }
  }

  function PriorityChunks(data: PriorityData): nat {
    match data
    case DepositRequest(_) => 6
    case FullExitRequest(_) => 6
  }

  /** Space a transaction asks for, given the addresses known to have an account. */
  function TxChunks(known: set<Address>, tx: Tx): nat {
    match tx
    case TransferTx(t) => if t.to in known then 2 else 5
    case WithdrawTx(_) => 6
    case CloseTx(_) => 1
    case ChangePubKeyTx(_) => 6
  }
}
