# Rollup core

A model of the core of a token rollup and proofs about it. Five parts are modelled, and how they agree:

- **Ledger** (`Types`, `Ledger`, `LedgerRuns`, `PlasmaState`, `Nonces`, `Keys`, `Ownership`, `Tokens`, `Replay`,
  `StateInit`, `Restarts`): accounts in a tree by id, an index from address to id, nonces, sets of non-fungible tokens, and the log of account updates.
  `Ledger` defines each operation on values; the class `PlasmaState` updates tree and index in place and is proved
  against it. A *run* is any sequence of priority operations and transactions.
- **Block-forming pipeline** (`Blocks`, `Keeper*`, `PlasmaStateKeeper`, `EthWatch`, `Mempool*`, `BlockProposer`,
  `Committer`, `Pipeline*`, `TypedRuns`): watcher, mempool, proposer, state keeper and committer, passing messages over
  first-in-first-out channels. `Keeper` is the state keeper as a machine of single turns of its loops, `Pipeline` the
  five together as a machine of single steps of any of them; the classes are the same components with their fields and
  loops. The invariants hold after every sequence of steps.
- **Restoring from chain** (`Restore`, `RestoreBlocks`, `PubData`, `PubDataReads`, `PublishedBlocks`, `MissedTransfers`,
  `ChainRestore`, `EndToEnd`, `DroppedBlock`, `EventsState`, `EventsDelivery`): public data of operations and
  blocks, the second executor that refills what is not published, how far it gets from what the committer publishes and
  the contract accepts, and the tracking of committed, verified and reverted blocks.
- **Amount packing** (`Powers`, `Bits`, `FloatPacking`, `FloatPackingJs`, `FloatTheorems`): the server's packer over
  128-bit arithmetic, the client library's over unbounded integers, and exactly where they agree.
- **Merkle layer of the circuit** (`Merkle`): over an arbitrary hash function.

Conventions. A panic is `Outcome.Panicked`, or a `None` or `false` result of a method; nothing is read after one. `requires`
clauses are what the source asserts or what its types guarantee. Signature checks appear as the recovered signer. Block
roots are the ledger itself. History that the source does not keep (`items`, `accepted`, `admitted`, `heard`, ...) is
part of the machines so that order and completeness can be stated. Bytes are numbers below 256; setting a clear bit is
adding its weight.

Properties the code or its comments suggest but which fail, with the exact condition under which they hold:

- The committer's shortcut for blocks "with only failed transactions" also drops blocks of self-transfers, which
  change the ledger (`Committer.DroppedExactly`, `DroppedBlock.SelfTransferIsDropped`).
- So what is published does not always rebuild the ledger: it does if and only if no dropped block executed anything
  (`EndToEnd.PublishedRunRestoresExactly`), and the contract accepts nothing after a dropped block
  (`EndToEnd.AcceptedRunRestoresExactly`).
- The update log does not determine the accounts: self-transfers are missing from it (`Replay.ReplayIsExactForOne`).
  Nothing at all is kept of the pending block. So after a restart an address can have a transaction executed a second
  time, exactly when the last change of its account in the sealed blocks was a self-transfer or it has a transaction not
  yet sealed (`Restarts.RepeatedExactly`, `Restarts.SelfTransferRepeats`, `Restarts.WithdrawalRepeats`).
- Deposits are executed whatever their token id, but an account that holds an id of 256 or more cannot be hashed, so
  sealing aborts (`Tokens.HashableExactly`, `Tokens.DepositWithoutRoot`).
- The mempool is meant to refuse spent nonces, but it does not hear of self-transfers: of a sender it admits a nonce that
  the blocks it has heard of have spent if and only if the sender's last change there was one
  (`PipelineHears.AdmitsExactly`).
- A priority operation can be executed only if the largest block has room for it: with less than 6 chunks it never leaves
  the watcher (`PipelineSettles.StuckWithoutRoom`, `PipelineSettles.EverythingCanBeSealed`).
- Priority operations "should not fail", but a full exit of an unknown account and a deposit into a full tree abort
  (`LedgerRuns.ExecutesExactly`).
- If some operation exceeds the largest block size the keeper would seal empty blocks for ever
  (`KeeperProgress.BatchEnds`); the pipeline never proposes one (`PipelineTheorems.EveryMiniBlockEndsAndSealsOnce`).
- The contract declares the numbers of its revert event as data, the restorer reads them as topics, so it aborts on any
  revert (`EventsDelivery.DeclaredLogs`, `EventsDelivery.DeliversVerifiedBlocks`).
- "Closest packable" is neither nearest nor the greatest value below (`FloatTheorems.FeeExamples`,
  `FloatTheorems.RustGreatestBelow`, `FloatTheorems.JsGreatestBelow`), and the two packers differ on some inputs
  (`FloatTheorems.SameBytesExactly`).
- The amount format reaches beyond 2^128 - 1, where the client packs and the server aborts
  (`FloatTheorems.AmountBeyondServer`, `FloatTheorems.RepresentableSameBytes`); the fee format does not
  (`FloatTheorems.FeesWithinServer`).

## Model

| member | source | states |
|---|---|---|
| PlasmaStates.PlasmaState.constructor | core/plasma/src/state.rs:63-73 | a ledger holds the given accounts and index, at the given block |
| PlasmaStates.PlasmaState.InsertAccount | core/plasma/src/state.rs:348-353 | writes the tree and the index together |
| PlasmaStates.PlasmaState.RemoveAccount | core/plasma/src/state.rs:355-360 | takes an account out of the tree and the index; an absent one changes nothing |
| PlasmaStates.PlasmaState.GetAccountByAddress | core/plasma/src/state.rs:338-346 | the account of an address, none when it has none, and an abort when the index names an absent account |
| PlasmaStates.PlasmaState.GetFreeAccountId | core/plasma/src/state.rs:121-124 | with ids dense, the least id without an account, to which no address resolves |
| PlasmaStates.PlasmaState.ChunksForTx | core/plasma/src/state.rs:91-102 | a transfer to a known address asks for 2 chunks and to a new one for 5; the others for their fixed size |
| PlasmaStates.PlasmaState.ApplyDepositOp | core/plasma/src/state.rs:362-386 | new ledger and log of a deposit, for an existing and for a new account; aborts on a full tree |
| PlasmaStates.PlasmaState.ApplyFullExitOp | core/plasma/src/state.rs:159-186 | the loop over an account's tokens empties it and logs one removal per token in ascending order; aborts on an absent account |
| PlasmaStates.PlasmaState.ApplyTransferToNewOp | core/plasma/src/state.rs:388-441 | guards, new ledger and log of a transfer that creates the recipient |
| PlasmaStates.PlasmaState.ApplyTransferOp | core/plasma/src/state.rs:550-604 | guards, new ledger and log of a transfer; a transfer to oneself is handed to the special case |
| PlasmaStates.PlasmaState.ApplyTransferOpToSelf | core/plasma/src/state.rs:606-635 | a self-transfer raises the nonce, moves nothing and logs nothing |
| PlasmaStates.PlasmaState.ApplyWithdrawOp | core/plasma/src/state.rs:443-478 | guards, new ledger and log of a withdrawal |
| PlasmaStates.PlasmaState.ApplyChangePubKeyOp | core/plasma/src/state.rs:513-548 | guards, new ledger and log of a key change |
| PlasmaStates.PlasmaState.ApplyCloseOp | core/plasma/src/state.rs:480-511 | closing requires no tokens and the right nonce, and removes the account |
| PlasmaStates.PlasmaState.ExecutePriorityOp | core/plasma/src/state.rs:105-157 | a deposit goes to the address's account or to a new one; a full exit to its id |
| PlasmaStates.PlasmaState.ExecuteTransaction | core/plasma/src/state.rs:112-119 | dispatch; closing is refused |
| PlasmaStates.PlasmaState.ExecuteTransferTx | core/plasma/src/state.rs:188-226 | every refusal in order, then transfer or transfer-to-new by whether the recipient is known; a refusal changes nothing |
| PlasmaStates.PlasmaState.ExecuteWithdrawTx | core/plasma/src/state.rs:228-256 | every refusal in order, then the withdrawal; a refusal changes nothing |
| PlasmaStates.PlasmaState.ExecuteChangePubKeyTx | core/plasma/src/state.rs:278-298 | every refusal in order, then the key change; a refusal changes nothing |
| Ledger.Ascending | core/models/src/node/account.rs:259-261 | the tokens of an account, each once and in ascending order |
| LedgerRuns.DepositShape | core/plasma/src/state.rs:126-144 | with the index sound, which account a deposit writes, under which id, and what it logs |
| LedgerRuns.TransferShape | core/plasma/src/state.rs:188-226 | with the index sound, the three outcomes of an executed transfer: to oneself, to a known and to a new account |
| LedgerRuns.WithdrawShape | core/plasma/src/state.rs:228-256 | with the index sound, the one account an executed withdrawal writes and the one update it logs |
| LedgerRuns.ChangePubKeyShape | core/plasma/src/state.rs:278-298 | with the index sound, the one account an executed key change writes and the one update it logs |
| LedgerRuns.ExecuteKeepsInv | core/plasma/src/state.rs:105-144 | every executed request keeps ids dense and within the tree, and index and tree mutually inverse; accounts keep address and id, and nonces never fall |
| LedgerRuns.RunKeepsInv | core/plasma/src/state.rs:121-144 | so does every run of requests, refused ones included |
| LedgerRuns.FullExitShape | core/plasma/src/state.rs:159-186 | a full exit empties its account and logs each token held once, the smallest first, with the nonce unmoved |
| LedgerRuns.CloseExactly | core/plasma/src/state.rs:480-511 | closing is refused exactly on held tokens and then on a wrong nonce; otherwise the account and nothing else goes, and index and tree stay mutually inverse |
| LedgerRuns.TransferExactly | core/plasma/src/state.rs:188-226 | a transfer is executed if and only if the token id is supported, the sender has the named account, it is unlocked and its key signed, the nonce is its next one and below the limit, it holds the token, and the recipient has an account or there is room for one |
| LedgerRuns.WithdrawExactly | core/plasma/src/state.rs:228-256 | the same for withdrawals, without the recipient |
| LedgerRuns.ChangePubKeyExactly | core/plasma/src/state.rs:278-298 | a key change is executed if and only if the sender has the named account, no signature is given or the address itself signed, and the nonce is its next one and below the limit |
| LedgerRuns.ExecutesExactly | core/plasma/src/state.rs:105-120 | every request is executed exactly when permitted with nonce and tree not exhausted, aborts exactly when permitted and one of them is, and is refused exactly when not permitted; so lookups and the transfer-to-new assertion never fail |
| LedgerRuns.ExecutedWasPermitted | core/plasma/src/state.rs:112-119 | over any run, whatever was executed was permitted by the ledger the requests before it had left |
| LedgerRuns.RefusedForFirst | core/plasma/src/state.rs:188-298 | a transaction is refused exactly when one of its checks fails, with the reason of the first that does |
| Keys.ExecuteSetsKey | core/plasma/src/state.rs:513-548 | only an executed key change of an address moves its key, to the key it names |
| Keys.KeyIsLastSet | core/plasma/src/state.rs:513-548 | after any run the key of an address is the one its last executed key change named |
| Keys.SignedByLastKey | core/plasma/src/state.rs:201-204 | every executed transfer and withdrawal of any run was signed with a key, the one its sender had set last before it |
| Ownership.ExecuteMovesTokens | core/plasma/src/state.rs:362-386 | what each executed request does to one address and one token |
| Ownership.HoldingIsHistory | core/plasma/src/state.rs:550-577 | after any run an address holds a token if and only if the executed requests, read in order, say so |
| Ownership.KnownIsHistory | core/plasma/src/state.rs:121-144 | after any run an address has an account exactly when it had one or an executed deposit or transfer named it as recipient |
| Nonces.ExecuteSpendsNonce | core/plasma/src/state.rs:388-409 | an executed transaction carries its sender's nonce, raises it by one and touches no other; priority operations touch none |
| Nonces.NoncesAreConsecutive | core/plasma/src/state.rs:112-119 | over any run the executed transactions of an address carry exactly the nonces between its first and last |
| Nonces.NoTransactionTwice | core/plasma/src/state.rs:112-119 | of two executed transactions of one sender the later has the greater nonce, so none is executed twice |
| Nonces.SpentNonceIsPast | core/plasma/src/state.rs:112-119 | an executed nonce stays below the ledger's for the rest of the run |
| Tokens.ExecuteConserves | core/plasma/src/state.rs:362-386 | one request keeps at most one owner per token, and tokens held change by exactly what arrives and leaves |
| Tokens.TokensConserved | core/plasma/src/state.rs:550-577 | over any run that deposits only tokens not held, each token has one owner and held + out = initially held + in, as multisets |
| Tokens.DepositKeepsSoleOwners | core/plasma/src/state.rs:362-386 | a deposit keeps single ownership exactly when nobody but the recipient holds the token |
| Tokens.TransferMovesToken | core/plasma/src/state.rs:550-577 | a transfer of any kind leaves the set of held tokens and single ownership as they were |
| Tokens.ExecuteKeepsHashable | core/models/src/node/account.rs:136-153 | from a ledger that has a root hash, an executed request leads to one without exactly when it deposits a token id beyond the token subtree |
| Tokens.HashableExactly | core/plasma/src/state.rs:126-144 | a run passes only through ledgers that have a root hash if and only if it takes no such deposit |
| Tokens.DepositWithoutRoot | core/plasma/src/state.rs:126-144 | a deposit of token 300, which is executed and leaves a ledger without a root hash |
| Replay.ReplayExecute | core/plasma/src/state.rs:362-635 | replaying a request's updates on a lagging copy gives a copy lagging by exactly the accounts last changed by a self-transfer |
| Replay.ReplayIsExactForOne | core/plasma/src/state.rs:606-635 | from an exact copy, an executed request's updates rebuild the result if and only if it is not a transfer to its own sender |
| Replay.LagsExactly | core/plasma/src/state.rs:606-635 | two ledgers related by lag are equal exactly when nothing lags, and an account is equal exactly when it does not lag |
| Replay.ReplayOfRun | core/server/src/state_keeper.rs:143-169 | over any run, replaying the whole log gives the final accounts and the exact index, but for nonces of accounts whose last change was a self-transfer |
| StateInit.PlasmaStateInitParams.constructor | core/server/src/state_keeper.rs:97-104 | starts empty |
| StateInit.PlasmaStateInitParams.InsertAccount | core/server/src/state_keeper.rs:157-160 | writes tree and index together |
| StateInit.PlasmaStateInitParams.RemoveAccount | core/server/src/state_keeper.rs:162-169 | takes the account out of tree and index and returns it, if there |
| StateInit.PlasmaStateInitParams.LoadStateDiff | core/server/src/state_keeper.rs:133-155 | the remove-update-insert loop is the replay of the stored updates, and takes over block number and counter; without a difference nothing changes |
| StateInit.StartUpLags | core/server/src/state_keeper.rs:133-169 | a start-up that replays the sealed blocks' updates finds their final ledger but for nonces lost to self-transfers |
| Committer.LogsNothing | core/plasma/src/state.rs:606-635 | a transaction logs nothing exactly when it executes as a self-transfer |
| Committer.DroppedExactly | core/server/src/committer.rs:30-42 | a block is not committed exactly when everything it executed was a self-transfer; it then left the ledger unchanged exactly when it executed nothing |
| DroppedBlock.SelfTransferIsDropped | core/server/src/committer.rs:30-42 | a start and a list of steps of the pipeline whose one sealed block is dropped although its root differs, so that what is published does not rebuild it |
| Restarts.RepeatedExactly | core/server/src/state_keeper.rs:133-169 | after a restart that replays the sealed blocks, a transaction the keeper had executed for an address can run again if and only if the account's last change in the sealed blocks was a self-transfer or the address has a transaction in the pending block: operations not sealed are lost and may run again |
| Restarts.LoggedRepeatsExactly | core/server/src/state_keeper.rs:143-155 | from a whole log replayed, a transaction of the run can run again if and only if its sender's last change was a self-transfer |
| Restarts.RebuiltCatchesUp | core/server/src/state_keeper.rs:143-155 | the replayed ledger can always be brought to the lost one, by the self-transfers it forgot |
| Restarts.WithdrawalRepeats | core/server/src/state_keeper.rs:133-169 | a keeper with one executed, unsealed withdrawal, which runs again after a restart |
| Restarts.SelfTransferRepeats | core/server/src/state_keeper.rs:133-169 | a signed transfer executed before and after a restart |
| Blocks.SmallestBlockSize | core/models/src/node/block.rs:181-195 | the first size that fits, none when none does |
| Blocks.FirstFitIsSmallest | core/models/src/node/block.rs:160-195 | over sorted sizes the first that fits is the smallest that fits, and there is one exactly when the largest fits |
| PlasmaStateKeepers.LargestSize | core/server/src/state_keeper.rs:203-220 | the maximum of the sorted sizes is the last of them |
| PlasmaStateKeepers.PlasmaStateKeeper.constructor | core/server/src/state_keeper.rs:193-236 | an idle keeper with an empty pending block of the largest size |
| PlasmaStateKeepers.PlasmaStateKeeper.SealPendingBlock | core/server/src/state_keeper.rs:456-503 | the sealed block, its updates and the fresh pending block are those of the machine's seal; choosing the size aborts exactly when none fits |
| PlasmaStateKeepers.PlasmaStateKeeper.ApplyPriorityOp | core/server/src/state_keeper.rs:362-398 | no space changes nothing; otherwise one step of the machine |
| PlasmaStateKeepers.PlasmaStateKeeper.ApplyTx | core/server/src/state_keeper.rs:400-454 | no space changes nothing; otherwise one step of the machine, executed or refused |
| PlasmaStateKeepers.PlasmaStateKeeper.PriorityTurn | core/server/src/state_keeper.rs:321-334 | one turn of the first loop: execute the head, or announce, seal and put it back |
| PlasmaStateKeepers.PlasmaStateKeeper.TxTurn | core/server/src/state_keeper.rs:336-349 | one turn of the second loop: execute the head, or announce, seal and put it back |
| PlasmaStateKeepers.PlasmaStateKeeper.FinishBatch | core/server/src/state_keeper.rs:350-358 | ages the pending block, seals it when too old, and announces |
| PlasmaStateKeepers.PlasmaStateKeeper.ExecuteTxBatch | core/server/src/state_keeper.rs:314-358 | both loops end, and leave the keeper where running the machine to its end does; aborts exactly when that does |
| Keeper.ChargedExactly | core/plasma/src/state.rs:91-102 | a request executes as an operation of exactly the size it was charged |
| Keeper.SealFits | core/server/src/state_keeper.rs:456-484 | the pending block never outgrows the largest size, so sealing always finds one |
| Keeper.SealKeepsInv | core/server/src/state_keeper.rs:456-503 | sealing keeps the invariant: everything in pending and sealed blocks follows from the requests they took |
| Keeper.KeeperStepKeepsInv | core/server/src/state_keeper.rs:314-454 | so does every turn of the keeper's loops, sealing and aborting included |
| Keeper.AcceptKeepsInv | core/server/src/state_keeper.rs:276-299 | so does accepting a mini-block |
| KeeperBlocks.SealedBlocks | core/server/src/state_keeper.rs:456-503 | sealed blocks have consecutive numbers and the smallest size that fits; executed operations come first, each at its index; each priority interval starts where the last ended and is as long as the block has priority operations |
| KeeperBlocks.PendingBlock | core/server/src/state_keeper.rs:362-454 | space left plus space of the executed operations is the largest size; the same index and interval rules hold for the block being filled |
| KeeperBlocks.NothingLost | core/server/src/state_keeper.rs:314-349 | every accepted request is queued or was taken once, in order; sealed blocks and the pending one hold exactly what executing the taken requests without blocks gives, successes and refusals each in order |
| KeeperNotes.AnnouncedTruthfully | core/server/src/state_keeper.rs:301-312 | between mini-blocks, what was announced is what was taken, in order, and what was announced under a number is that block's transactions |
| KeeperNotes.NotifyKeepsNotes | core/server/src/state_keeper.rs:301-312 | announcing what was executed, under the number of the block being filled, keeps announcements and blocks in step |
| KeeperNotes.KeeperStepKeepsNotes | core/server/src/state_keeper.rs:314-358 | every turn keeps announcements and blocks in step |
| KeeperProgress.StepDecreases | core/server/src/state_keeper.rs:314-349 | while every queued request fits an empty block, each turn lowers the measure of queue length and whether the head fits |
| KeeperProgress.BatchEnds | core/server/src/state_keeper.rs:314-349 | executing a mini-block ends if and only if every request fits an empty block when its turn comes; otherwise it seals empty blocks for ever |
| KeeperProgress.DrainIsIterate | core/server/src/state_keeper.rs:314-358 | running a mini-block to its end is a finite number of turns |
| KeeperProgress.RequestsAge | core/server/src/state_keeper.rs:350-356 | while its block is unsealed the pending block ages by one per mini-block handled |
| KeeperProgress.SealedWithinFifty | core/server/src/state_keeper.rs:350-356 | for the keeper alone: an operation waiting between mini-blocks is in the sealed block of that number after 50 more mini-blocks, whatever they hold |
| KeeperOpen.TurnSealsExactly | core/server/src/state_keeper.rs:314-358 | a turn of the keeper seals one block exactly when the next request has no room, or there is none left and a non-empty block is 50 mini-blocks old |
| KeeperOpen.StaysOpen | core/server/src/state_keeper.rs:350-356 | mini-blocks that together have room in the pending block and do not make it older than 50 seal nothing |
| KeeperBudget.KnowingMoreCostsLess | core/plasma/src/state.rs:91-102 | whoever knows more addresses never asks for more space |
| KeeperBudget.DemandFits | core/server/src/state_keeper.rs:314-349 | a mini-block asking for no more than the largest block ends |
| KeeperBudget.StepKeepsBudget | core/server/src/state_keeper.rs:314-358 | every turn keeps the budget of one seal |
| KeeperBudget.OneSealPerMiniBlock | core/server/src/state_keeper.rs:314-358 | a mini-block asking for no more than the largest block seals at most one block |
| EthWatch.SelectionIsUnique | core/server/src/eth_watch.rs:327-344 | there is only one gap-free selection from an id that fits and cannot be extended |
| EthWatch.Select | core/server/src/eth_watch.rs:327-344 | the selection exists: stored operations from the id on, without a gap, that fit, and no more would |
| EthWatch.CollectKeepsKeyed | core/server/src/eth_watch.rs:296-301 | collecting events keeps every operation under its own serial id |
| EthWatch.CollectExactly | core/server/src/eth_watch.rs:296-301 | an id is in the queue exactly when it was or some event carried it, and under it is the last such event, or what was there |
| EthWatch.SelectionTakesAll | core/server/src/eth_watch.rs:327-344 | stored operations from the first id on that have room together are all selected |
| EthWatch.EthWatcher.InsertRequests | core/server/src/eth_watch.rs:296-301 | later events replace earlier ones with the same id |
| EthWatch.EthWatcher.GetPriorityRequests | core/server/src/eth_watch.rs:327-344 | the loop returns the unique selection |
| Mempool.MempoolState.constructor | core/server/src/mempool.rs:109-130 | knows every loaded account by id and, for each address, the nonce of an account with it; exactly the accounts when addresses are distinct |
| Mempool.MempoolState.ChunksForTx | core/server/src/mempool.rs:96-107 | the size estimated from the known addresses |
| Mempool.MempoolState.AddTx | core/server/src/mempool.rs:132-146 | admits exactly when the nonce is not below the known one; queues it last |
| Mempool.MempoolState.UpdateNonces | core/server/src/mempool.rs:174-213 | the loop over updates is the replay of each on ids and nonces; the queue is untouched |
| Mempool.MempoolState.PrepareTxForBlock | core/server/src/mempool.rs:257-277 | takes the longest prefix that fits and puts the rest back in order |
| Mempool.FittingIsUnique | core/server/src/mempool.rs:257-277 | there is only one such prefix |
| Mempool.MempoolState.SelectPriorityOps | core/server/src/mempool.rs:230-255 | the space left is the largest size less what was selected, and never underflows |
| Mempool.MempoolState.ProposeNewBlock | core/server/src/mempool.rs:219-228 | priority operations first, then transactions into the space left |
| BlockProposers.BlockProposer.constructor | core/server/src/block_proposer.rs:66-81 | starts at the keeper's counter |
| BlockProposers.BlockProposer.CommitNewTxMiniBatch | core/server/src/block_proposer.rs:47-55 | sends what was proposed and moves its counter over exactly the serial ids sent |
| PipelineInv.HearAllBehind | core/server/src/mempool.rs:174-213 | hearing updates the ledger has reached never puts the mempool ahead of it |
| PipelineInv.LogBehind | core/plasma/src/state.rs:362-635 | over any run, no logged nonce or address is ahead of the final ledger |
| PipelineInv.PoolNeverAhead | core/server/src/mempool.rs:174-213 | the mempool knows no address and no nonce the ledger has not reached |
| PipelineRuns.SerialKeeps | core/server/src/block_proposer.rs:47-55 | every step of every component keeps serial ids consecutive up to the proposer's counter |
| PipelineRuns.TxsKeeps | core/server/src/mempool.rs:257-277 | every step keeps each admitted transaction in exactly one place, in order |
| PipelineRuns.LogKeeps | core/server/src/committer.rs:30-73 | every step keeps what the mempool has heard a prefix of the sealed blocks' updates, the rest being on its way |
| PipelineRuns.SpaceKeeps | core/server/src/mempool.rs:219-277 | every step keeps each proposed mini-block within one empty block, and the keeper within one seal |
| PipelineRuns.RefusedKeeps | core/server/src/mempool.rs:136-146 | every step keeps refused transactions below the ledger's nonce |
| PipelineRuns.ProposalIsAffordable | core/server/src/mempool.rs:230-277 | what the mempool proposes fits the largest block by the ledger's own count |
| PipelineRuns.RefusesOnlyDead | core/server/src/mempool.rs:136-146 | a refused nonce is one the ledger has passed |
| PipelineRuns.EveryInterleaving | core/server/src/state_keeper.rs:276-299 | the invariant holds after every sequence of steps of watcher, mempool, proposer, keeper and committer |
| PipelineTheorems.PriorityLands | core/server/src/state_keeper.rs:362-398 | in a run without abort every priority request is executed, in order |
| PipelineTheorems.PriorityOnceInOrder | core/server/src/block_proposer.rs:47-55 | in every interleaving the proposer's counter is the keeper's plus what is in flight, in-flight ids are exactly that interval, and executed ids are consecutive from the start |
| PipelineTheorems.BlockIntervalsAreTrue | core/server/src/state_keeper.rs:476-488 | in every interleaving each sealed block executes exactly the serial ids its interval announces |
| PipelineTheorems.TransactionsOnceInOrder | core/server/src/mempool.rs:257-277 | in every interleaving each admitted transaction is in exactly one place, in the order of admission |
| PipelineTheorems.EveryMiniBlockEndsAndSealsOnce | core/server/src/state_keeper.rs:314-358 | in every interleaving the mini-block being executed ends, having sealed at most one block |
| PipelineTheorems.RefusedNeverSucceed | core/server/src/mempool.rs:136-146 | a transaction the mempool refused cannot be executed, now or after any further requests |
| PipelineTheorems.MempoolReplaysLog | core/server/src/mempool.rs:174-213 | what the mempool has heard is a prefix of the sealed blocks' log, and its nonces are never above the ledger's; what they are says `PipelineHears.MempoolKnowsBlocks` |
| MempoolKnowledge.HearOne | core/server/src/mempool.rs:174-213 | an update that fits the accounts known teaches the mempool exactly the account that replaying it rebuilds |
| MempoolKnowledge.HearsWhatReplays | core/server/src/mempool.rs:174-213 | from the accounts a run started with, hearing the run's log teaches the mempool exactly the accounts that replaying it rebuilds |
| MempoolKnowledge.KnowsLedger | core/server/src/mempool.rs:174-213 | so it knows exactly the ledger's addresses, each with the ledger's nonce if and only if its last change was not a self-transfer, and a lower one otherwise |
| PipelineHears.MempoolKnowsBlocks | core/server/src/mempool.rs:174-213 | in every interleaving the mempool knows, in that sense, the ledger after the first so many sealed blocks: with no update on its way, after all that were delivered |
| PipelineHears.AdmitsExactly | core/server/src/mempool.rs:136-152 | in every interleaving the next transaction is admitted if its nonce is not below the ledger's after the blocks heard of, and otherwise refused, unless its sender's last change there was a self-transfer; then the nonce spent last is admitted again |
| PipelineHears.ProposesAllThatFits | core/server/src/mempool.rs:219-278 | in every interleaving a proposal takes the selected operations and the longest fitting prefix of the queue |
| PipelineWatches.WatcherHoldsAll | core/server/src/eth_watch.rs:296-301 | in every interleaving the watcher stores under an id exactly the operation it was told last, or the one it started with |
| PipelineWatches.OffersNext | core/server/src/eth_watch.rs:327-344 | in every interleaving what the watcher was told of the operations from the proposer's counter on is offered, without a gap, as far as the largest block has room |
| PipelineWatches.SubmittedOnce | core/server/src/mempool.rs:136-152 | in every interleaving each submission leads to exactly one admission or refusal, or is still in the inbox |
| PipelineOpen.SealsExactly | core/server/src/state_keeper.rs:314-358 | in every reachable state a step seals exactly one block if the keeper is asked to, has no room for the next request, or ends a mini-block with a non-empty block 50 mini-blocks old; otherwise none |
| PipelineOpen.BlockStaysOpen | core/server/src/state_keeper.rs:350-356 | in every interleaving, while nobody asks for a seal, all that the keeper is given has room and the block does not get older than 50, it is not sealed |
| PipelineSettles.Settles | core/server/src/block_proposer.rs:47-57 | from every reachable state the components' own steps lead to one where nothing is on its way, or to an abort of the keeper |
| PipelineSettles.EverythingCanBeSealed | core/server/src/block_proposer.rs:47-57 | from every reachable state, with blocks of at least 6 chunks, own steps lead to one where all admitted transactions and all operations on offer are in sealed blocks, in order and once, and the mempool knows the ledger after them; or to an abort of the keeper |
| PipelineSettles.StuckWithoutRoom | core/server/src/eth_watch.rs:327-344 | with smaller blocks no priority operation ever leaves the watcher |
| PipelineAges.EveryOperationSealedWithinFifty | core/server/src/state_keeper.rs:350-356 | in every interleaving, once 50 more mini-blocks have ended, not counting one under way, every waiting operation is in the sealed block that was pending |
| PipelineTheorems.FeeAccountStands | core/plasma/src/state.rs:300-308 | in every interleaving the fee account is in the ledger, now and after any further requests, so collecting fees never aborts |
| PipelineTheorems.EveryRequestAnnouncedOnce | core/server/src/state_keeper.rs:301-358 | in every interleaving, between mini-blocks, each request taken was announced once, in order, under the number of the block that holds it |
| Restore.RestoreFollowsExecution | core/data_restore/src/tree_state.rs:84-253 | restoring a published operation, whatever its erased fields hold, has the effect and log of the request it came from and refills the operation |
| Restore.RestoresExactly | core/data_restore/src/tree_state.rs:84-253 | how restoring any operation ends: an error exactly on a missing account, a token not held or a closed account not empty, an abort exactly on a taken or missing place, a missing exit account or an exhausted nonce; never for a nonce or signature |
| Restore.TreeState.constructor | core/data_restore/src/tree_state.rs:45-63 | takes over ledger, counter and sizes, and the address of the fee account, which must exist |
| Restore.TreeState.ApplyPublished | core/data_restore/src/tree_state.rs:84-253 | refills sender, nonce and recipient from the ledger, then applies; each error as in the source |
| Restore.TreeState.UpdateTreeStatesFromOpsBlock | core/data_restore/src/tree_state.rs:72-281 | the loop rebuilds ledger, counter, block and updates as specified, or stops with the first error |
| Restore.RestoreFollowsRun | core/data_restore/src/tree_state.rs:84-253 | restoring the published operations of any run, no-ops anywhere between, ends in its ledger, its updates and its count of priority operations |
| RestoreBlocks.RestoreSealedBlock | core/data_restore/src/tree_state.rs:72-281 | restoring a sealed block's operations gives its root, number, fee account, interval, size and updates, and its operations in place |
| RestoreBlocks.RestoreFollowsKeeper | core/data_restore/src/tree_state.rs:72-281 | restoring any number of sealed blocks in turn rebuilds the keeper's ledger, block number and counter |
| PubData.BytesBack | core/models/src/primitives.rs:447-457 | a number written in enough bytes is read back |
| PubData.FeeBack | core/models/src/node/operations.rs:234-293 | a packed fee takes two bytes and is read back as its repacked value |
| PubData.PublicDataLengths | core/models/src/node/operations.rs:472-496 | an operation publishes its chunk count times eight bytes: its code, its fields, zeros |
| PubData.WireCarries | core/data_restore/src/tree_state.rs:84-253 | what is read back carries all that restoring needs |
| PubData.OperationBack | core/models/src/node/operations.rs:485-540 | reading any operation's public data gives it back, less the fields that are not published |
| PubData.GetRollupOpsFromData | core/data_restore/src/rollup_ops.rs:79-98 | the loop over the data reads operations one after another; an unreadable one is an error, data that ends within one an abort |
| PubDataReads.ReadableExactly | core/models/src/node/operations.rs:513-537 | data is an operation exactly when it starts with a code, has the code's length (or more, for a key change), and is all zero for a no-op; any two bytes are a fee |
| PubDataReads.SameOperationSameBytes | core/models/src/node/operations.rs:513-537 | two data read as one operation agree in every byte but fees and padding |
| PubDataReads.FeeReads | core/models/src/primitives.rs:273-301 | any two bytes unpack as a fee within 128 bits |
| PubData.ParsePublished | core/data_restore/src/rollup_ops.rs:79-98 | published operations followed by padding are read back in order, the padding as no-ops |
| PublishedBlocks.ExecutedIsTyped | core/models/src/node/operations.rs:32-41 | what the ledger executes can be published: ids fit three bytes |
| PublishedBlocks.BlockDataBack | core/models/src/node/block.rs:117-129 | a block's padded bytes are read back as the operations it executed, and no-ops |
| PublishedBlocks.BytesRestoreKeeper | core/data_restore/src/tree_state.rs:72-281 | the bytes of all sealed blocks, dropped ones included, rebuild the keeper's ledger, block number and counter |
| MissedTransfers.RestoreTrails | core/data_restore/src/tree_state.rs:84-253 | on a ledger behind by missed self-transfers, restoring an operation succeeds and leaves it exactly as far behind |
| MissedTransfers.RunTrails | core/data_restore/src/tree_state.rs:84-253 | so does restoring what any run published |
| MissedTransfers.MissRun | core/plasma/src/state.rs:606-635 | missing a run of self-transfers leaves the restorer behind by exactly their senders |
| MissedTransfers.TrailsExactly | core/data_restore/src/tree_state.rs:84-253 | the ledgers are equal exactly when nothing was missed |
| ChainRestore.PublishedRestores | core/server/src/committer.rs:30-60 | restoring what the committer publishes succeeds and ends behind the keeper by exactly the self-transfers in dropped blocks |
| ChainRestore.PublishedRestoresExactly | core/server/src/committer.rs:30-60 | it ends in the keeper's ledger if and only if no dropped block executed anything; no later block hides the difference |
| ChainRestore.AcceptedUpToDrop | contracts/contracts/ZkSync.sol:370-386 | the contract, which takes only the next number, accepts exactly the blocks before the first dropped one |
| ChainRestore.AcceptedRestoresExactly | contracts/contracts/ZkSync.sol:370-386 | what it accepted rebuilds the keeper's ledger, block number and counter there; all blocks if and only if none was dropped |
| TypedRuns.SealsOnlyTyped | core/server/src/signature_checker.rs:121-131 | in every interleaving, if what wallets and contract hand in is typed, so is all that is sealed |
| EndToEnd.PublishedRunRestoresExactly | core/data_restore/src/data_restore_driver.rs:298-320 | in every interleaving with typed inputs, what is published rebuilds the keeper's ledger if and only if no dropped block executed anything |
| EndToEnd.AcceptedRunRestoresExactly | core/data_restore/src/data_restore_driver.rs:298-320 | in every interleaving with typed inputs, what the contract accepts rebuilds the keeper up to the first dropped block, and all of it if and only if there is none |
| EndToEnd.DeliveredRunRestores | core/data_restore/src/data_restore_driver.rs:229-320 | for every interleaving, every legal history of a contract that holds what it accepted and every sequence of rounds: the blocks delivered rebuild the keeper's ledger, block number and counter after the last verified block, unless the rounds abort |
| EndToEnd.CaughtUpRunRestores | core/data_restore/src/data_restore_driver.rs:229-320 | so the restorer has then rebuilt the keeper as it was after the last block verified by h |
| EventsStates.WindowAdvances | core/data_restore/src/events_state.rs:125-140 | the window moves forward and not past the confirmed head exactly when the head has not fallen behind the last watched block |
| EventsStates.WindowIsWidest | core/data_restore/src/events_state.rs:128-140 | under a head that has not fallen back the window ends at the greatest block that is confirmed and no more than the step beyond its first |
| EventsStates.EventsState.constructor | core/data_restore/src/events_state.rs:43-51 | starts at the genesis block with no events |
| EventsStates.EventsState.RemoveVerifiedEvents | core/data_restore/src/events_state.rs:288-292 | drops the verified blocks from both lists; aborts exactly when fewer are committed |
| EventsStates.EventsState.RemoveReverted | core/data_restore/src/events_state.rs:251-260 | the in-place loop removes exactly the events above the number, keeping order |
| EventsStates.EventsState.UpdateBlocksState | core/data_restore/src/events_state.rs:215-285 | the loop over logs, with reverts; aborts exactly at a log without the topics read from it |
| EventsStates.EventsState.UpdateAndDeliver | core/data_restore/src/data_restore_driver.rs:229-262 | one round of the driver delivers what the specification does, also when it skips delivery for lack of events |
| EventsDelivery.VerifiedMatchCommitted | core/data_restore/src/events_state.rs:288-298 | the first verified-many committed events have the verified block numbers, and there are that many |
| EventsDelivery.ApplyAllTracks | core/data_restore/src/events_state.rs:240-285 | over any legal history the lists hold exactly the standing blocks after those delivered |
| EventsDelivery.DeclaredLogs | core/data_restore/src/events_state.rs:240-260 | with revert logs as the contract declares them, processing ends without abort exactly when nothing was reverted |
| EventsDelivery.StaysSane | contracts/contracts/ZkSync.sol:675-728 | a verified block is never reverted: its committing transaction stands for good |
| EventsDelivery.DeliversVerifiedBlocks | core/data_restore/src/events_state.rs:64-93 | for every legal history and every head that never falls back, the windows tile the range and blocks 1, 2, 3, ... are delivered once each with the surviving commit's transaction, if and only if revert numbers are topics or nothing was reverted; otherwise it aborts |
| EventsDelivery.WatchedAdvances | core/data_restore/src/events_state.rs:128-140 | under a head resting at h, n rounds look at n times step + 1 blocks more, or reach h |
| EventsDelivery.CatchesUp | core/data_restore/src/events_state.rs:64-93 | once the head has rested at h for enough rounds to walk there from genesis, exactly the blocks verified by h have been delivered, in order, unless a revert aborted |
| Bits.PackBitsIntoBytesInOrder | core/models/src/primitives.rs:255-271 | the bytes of the bits, highest first |
| Bits.BytesIntoBEBits | core/models/src/primitives.rs:395-405 | the bits of the bytes, highest first |
| Bits.BytesRoundTrip | core/models/src/primitives.rs:395-405 | unpacking packed bits gives them back |
| FloatPacking.ConvertToFloat | core/models/src/primitives.rs:320-393 | rejects exactly what exceeds the greatest mantissa at the greatest exponent, despite saturation; otherwise encodes the least exponent at which the greatest mantissa reaches the number; no product overflows 128 bits |
| FloatPacking.Scale | core/models/src/primitives.rs:341-366 | quotient, logarithm and correction give the least such exponent, within 128 bits |
| FloatPacking.LeastIsUnique | core/models/src/primitives.rs:341-366 | there is only one least exponent |
| FloatPacking.SaturatedRange | core/models/src/primitives.rs:326-339 | the saturating range check decides as the exact one |
| FloatPacking.PackingLoss | core/models/src/primitives.rs:341-368 | both fields fit, the loss is below one unit of the exponent, and beyond the mantissa's range below base/max of the number |
| FloatPacking.ReadBack | core/models/src/primitives.rs:273-301 | packed fields are read back |
| FloatPacking.PackAsFloat | core/models/src/primitives.rs:303-309 | bytes of the packed number, none where it does not fit 128 bits or is out of range |
| FloatPacking.UnpackFloat | core/models/src/primitives.rs:273-301 | mantissa times power, none on a wrong length or beyond 128 bits |
| FloatPackingJs.BitsIntoBytesInBEOrder | js/zksync.js/src/utils.ts:67-105 | the same bytes of the bits as the server's loop |
| FloatPackingJs.IntegerToFloat | js/zksync.js/src/utils.ts:107-147 | for every base, rejects exactly what exceeds the range for base 10 and encodes the least exponent at which the truncated quotient is a mantissa, bytes reversed |
| FloatPackingJs.Shrink | js/zksync.js/src/utils.ts:120-125 | repeated division gives that exponent and quotient |
| FloatPackingJs.FirstIsUnique | js/zksync.js/src/utils.ts:120-125 | there is only one such exponent |
| FloatPackingJs.Pack | js/zksync.js/src/utils.ts:149-181 | the second reversal of the bytes undoes the first and leaves the server's layout: the bits within bytes stay as they are |
| FloatPackingJs.FloatToInteger | js/zksync.js/src/utils.ts:34-65 | mantissa times power from the bits of the big-endian number |
| FloatTheorems.ExponentsDiffer | js/zksync.js/src/utils.ts:120-125 | the server's exponent is the client's, plus one exactly where the quotient is the greatest mantissa with a rest |
| FloatTheorems.RaggedExactly | js/zksync.js/src/utils.ts:120-125 | that is so exactly when the number lies strictly between max and max + 1 units of some power of the base |
| FloatTheorems.SameBytesExactly | js/zksync.js/src/utils.ts:107-147 | over all numbers the two packers give the same result exactly when both refuse it as out of range, or it fits 128 bits and lies off these intervals |
| FloatTheorems.RepresentableSameBytes | js/zksync.js/src/utils.ts:183-201 | representable amounts are accepted by the client, and by the server, with the same bytes, exactly up to 2^128 - 1 |
| FloatTheorems.AmountBeyondServer | core/models/src/primitives.rs:428-431 | the amount 10^40 is representable and packed by the client, and the server aborts on it |
| FloatTheorems.FeesWithinServer | core/models/src/params.rs:111-116 | no fee in range gets there |
| FloatTheorems.KeptExactly | core/models/src/node/mod.rs:85-91 | packing keeps a number exactly when it is representable, and always yields a representable one |
| FloatTheorems.KeptByBoth | core/models/src/node/mod.rs:85-91 | among the numbers each packer accepts, those it keeps are exactly the representable ones; repacking never increases |
| FloatTheorems.RepackingIsIdempotent | core/models/src/node/mod.rs:111-119 | what either packer accepts and unpacks it accepts again, and nothing more changes |
| FloatTheorems.RustRoundTrip | core/models/src/primitives.rs:273-309 | unpacking the server's bytes, where it gives any, gives the truncated number |
| FloatTheorems.JsRoundTrip | js/zksync.js/src/utils.ts:203-221 | unpacking the client's bytes, where it gives any, gives the truncated number |
| FloatTheorems.ReadersAgree | js/zksync.js/src/utils.ts:34-65 | any bytes the server can read the client reads the same; the client reads and the server fails exactly when the power or the product exceeds 128 bits |
| FloatTheorems.RustGreatestBelow | core/models/src/node/mod.rs:111-119 | for numbers the server accepts, its value is the greatest representable number not above the input exactly when no e >= 1 has max * base^(e-1) < n < ceil(max/base) * base^e |
| FloatTheorems.JsGreatestBelow | js/zksync.js/src/utils.ts:203-221 | for numbers in range, the client's is exactly when no e >= 1 has (max + 1) * base^(e-1) <= n < ceil(max/base) * base^e |
| FloatTheorems.GreatestBelowExactly | js/zksync.js/src/utils.ts:203-221 | for either exponent: exactly when it is 0 or mantissa times base reaches the greatest mantissa |
| FloatTheorems.FeeExamples | js/zksync.js/src/utils.ts:172-181 | fees 2047, 2048 and 20475: kept, lowered to 2040 though 2047 is nearer, and packed to 20470 by the client but 20400 by the server |
| FloatTheorems.ClosestPackable | js/zksync.js/src/utils.ts:208-247 | the truncated number, none when it is too big |
| FloatTheorems.PackChecked | js/zksync.js/src/utils.ts:183-201 | succeeds exactly on representable amounts, with the server's bytes exactly up to 2^128 - 1 |
| FloatTheorems.IsPackable | core/models/src/node/mod.rs:85-91 | the server's test is representability; it aborts exactly on numbers beyond 128 bits or out of range |
| FloatTheorems.FormatsFit | core/models/src/params.rs:111-116 | the amount and fee formats satisfy what the packers ask |
| Merkle.AllocateMerkleRoot | core/circuit/src/circuit.rs:1885-1944 | the loop recomputes the root from a leaf, the low index bits and the path |
| Merkle.PathGivesRoot | core/circuit/src/circuit.rs:1909-1943 | with the tree's path, any leaf gives the root of the tree with only that leaf replaced |
| Merkle.OwnPathGivesRoot | core/circuit/src/circuit.rs:1909-1943 | the tree's leaf with its path gives its root |
| Merkle.PathBinds | core/circuit/src/circuit.rs:1909-1943 | a leaf and path with the tree's root are the tree's own, or an explicit pair of inputs with one hash is found |
| Merkle.PathIsOwn | core/circuit/src/circuit.rs:1909-1943 | so under an injective hash they are the tree's own |
| Merkle.RollingRoot | core/circuit/src/circuit.rs:153-221 | the loop checks each update against the rolling root and moves it on |
| Merkle.RollingIsSound | core/circuit/src/circuit.rs:187-221 | accepted updates name the leaves standing at their turn and end in the root after all of them in order, or a collision is found |
| Merkle.RollingIsComplete | core/circuit/src/circuit.rs:187-221 | honest updates are accepted and end in that root |
| Merkle.RollingExactly | core/circuit/src/circuit.rs:187-221 | under an injective hash exactly the honest updates are accepted |
| Merkle.HashLevel | core/circuit/src/circuit.rs:2052-2068 | one level hashes neighbours in pairs, a last one alone |
| Merkle.RootFromFullRepresentation | core/circuit/src/circuit.rs:2026-2071 | the level loop over 2^depth fees gives the tree's root; it aborts exactly when it does not end in one node |
| Merkle.LevelsGiveRoot | core/circuit/src/circuit.rs:2050-2071 | level by level equals the recursive root |
| Merkle.LevelsGiveRootFromAnyLeaf | core/circuit/src/circuit.rs:1909-1943 | and the root from any single leaf with its audit path |

## Left out

- Fee collection and account closing on the server path: both are switched off in the source; closing exists only as `ApplyCloseOp`.
- Nonce wrap-around at 2^32 - 1 in a release build: treated as an abort, as in a build with overflow checks.
- Signatures, hashing, curve arithmetic and proofs: a signer, an arbitrary hash function, or nothing.
- Per-operation circuit constraints and the token subtree: unfinished in the source.
- Packing of leaf bits into field elements before hashing: a leaf is already a sequence of field elements.
- Storage, crash recovery and the network: what they deliver is a parameter; the committer's and the restorer's database writes are not modelled.
- The sender of committed blocks to the contract: what the committer publishes reaches the contract in order, once each.
- Watcher start-up range, unconfirmed queue and head regression: only the queue of confirmed operations is modelled, and it may receive any operations at any time.
- Lost messages: the source logs a warning when the mempool or a listener is gone; channels here lose nothing.
- Bounded channel capacity: it only delays senders.
- The subtraction of the confirmation offset from the head block: the confirmed head is a parameter.
- Queries answered by the keeper between requests (`GetAccount`, `GetExecutedInPendingBlock`): read-only.
- Ethereum witness and withdrawal data of a block: they would add only members like those of the public data.
- Downloading the transaction of a delivered event: an arbitrary function from hashes to data.
- Reading the block bytes out of a transaction's call data: a transaction's data is the block's bytes.
- EndToEnd.DeliveredRunRestores: takes as given that the transactions of the contract's standing blocks carry the bytes of the first blocks it accepted, because the sender between committer and contract is not modelled.
- PlasmaStateKeepers.PlasmaStateKeeper.ExecuteTxBatch: requires that every request fits an empty block when its turn comes, because otherwise the source does not terminate (`KeeperProgress.BatchEnds`).
- FloatPackingJs.IntegerToFloat: requires a base of at least 2 and a whole number of bytes; with a smaller base the source's loop does not end, and with other widths it throws.
- FloatPacking.ConvertToFloat: requires base at least 2 and at most the greatest mantissa, as every call has; beyond that the source's products can overflow.
- PipelineSettles.EverythingCanBeSealed: says that the components' own steps can get there, not that every schedule does, because how the runtime schedules them is not modelled.
- PublishedBlocks.ExecutedIsTyped: takes the widths of the source's integer types and the server's own check of a transaction's fee as given.
- PlasmaStateKeepers.PlasmaStateKeeper.SealPendingBlock: does not model the abort of the root hash on a token id of 256 or more, because block roots are the ledger itself; when a ledger has none is `Tokens.HashableExactly`.
- Restarts.RepeatedExactly: takes every sealed block as stored; what is sealed and not yet stored is lost like the pending block.
