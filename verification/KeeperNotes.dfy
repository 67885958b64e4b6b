/** The keeper's notifications: every executed request, refused ones included, is
    announced exactly once, in order, with the number of the block it ends up in. */
module KeeperNotes {
  import opened Types
  import opened Ledger
  import opened Blocks
  import opened Keeper
  import opened KeeperBlocks

  function AllAnnounced(notes: seq<Note>): seq<ExecutedOp> {
    if notes == [] then [] else AllAnnounced(notes[..|notes| - 1]) + notes[|notes| - 1].ops
  }

  /** What was announced for one block. */
  function Announced(notes: seq<Note>, number: nat): seq<ExecutedOp> {
    if notes == [] then [] else
    var last := notes[|notes| - 1];
    Announced(notes[..|notes| - 1], number) + if last.blockNumber == number then last.ops else []
  }

  /** The announced operations are the block's transactions, which list the executed ones first. */
  predicate Announces(announced: seq<ExecutedOp>, transactions: seq<ExecutedOp>) {
    Only(announced, true) + Only(announced, false) == transactions
  }

  ghost predicate NotesInv(k: Keeper, n0: nat) {
    && k.blockNumber == n0 + |k.commits|
    && Requests(AllAnnounced(k.notes) + k.executed) == Taken(k.commits) + k.pending.items
    && (forall i | 0 <= i < |k.commits| :: Announces(Announced(k.notes, n0 + i), k.commits[i].block.transactions))
    && Only(Announced(k.notes, k.blockNumber) + k.executed, true) == k.pending.success
    && Only(Announced(k.notes, k.blockNumber) + k.executed, false) == k.pending.failed
    && (forall i | 0 <= i < |k.notes| :: k.notes[i].blockNumber <= k.blockNumber)
  }

  lemma AnnouncedOneMore(notes: seq<Note>, note: Note, number: nat)
    ensures Announced(notes + [note], number) ==
            Announced(notes, number) + if note.blockNumber == number then note.ops else []
    ensures AllAnnounced(notes + [note]) == AllAnnounced(notes) + note.ops
  {
    assert (notes + [note])[..|notes|] == notes;
  }

  lemma {:induction false} NothingAhead(notes: seq<Note>, number: nat)
    requires forall i | 0 <= i < |notes| :: notes[i].blockNumber < number
    ensures Announced(notes, number) == []
  {
    if notes != [] {
      NothingAhead(notes[..|notes| - 1], number);
    }
  }

  lemma NotifyKeepsNotes(k: Keeper, n0: nat)
    requires NotesInv(k, n0)
    ensures NotesInv(Notify(k), n0)
  {
    hide Only, Requests, Taken, Announced, AllAnnounced;
    var note := Note(k.executed, k.blockNumber);
    AnnouncedOneMore(k.notes, note, k.blockNumber);
    assert AllAnnounced(k.notes + [note]) + [] == AllAnnounced(k.notes) + k.executed;
    assert Announced(k.notes + [note], k.blockNumber) + [] == Announced(k.notes, k.blockNumber) + k.executed;
    forall i | 0 <= i < |k.commits|
      ensures Announces(Announced(k.notes + [note], n0 + i), k.commits[i].block.transactions)
    {
      AnnouncedOneMore(k.notes, note, n0 + i);
      assert Announced(k.notes, n0 + i) + [] == Announced(k.notes, n0 + i);
    }
  }

  lemma SealKeepsNotes(k: Keeper, n0: nat)
    requires NotesInv(k, n0) && k.executed == []
    ensures NotesInv(Seal(k), n0)
  {
    hide Requests, AllAnnounced, ChunksUsed, FirstFit, Only;
    if FirstFit(ChunksUsed(k.pending.success + k.pending.failed), k.sizes).None? {
      HaltKeepsNotes(k, n0);
    } else {
      var after := Seal(k);
      NothingAhead(k.notes, k.blockNumber + 1);
      assert Announced(k.notes, k.blockNumber) + [] == Announced(k.notes, k.blockNumber);
      assert Only([] + [], true) == [] && Only([] + [], false) == [] by { OnlyAll([], true); }
      assert after.commits[..|k.commits|] == k.commits;
      assert Taken(after.commits) + [] == Taken(k.commits) + k.pending.items;
    }
  }

  /** One more executed request, recorded in the pending block and not yet announced. */
  lemma RecordKeepsNotes(k: Keeper, n0: nat, after: Keeper, op: ExecutedOp)
    requires NotesInv(k, n0)
    requires after.commits == k.commits && after.notes == k.notes && after.blockNumber == k.blockNumber
    requires after.executed == k.executed + [op] && after.pending.items == k.pending.items + [RequestOf(op)]
    requires after.pending.success == k.pending.success + if op.Succeeded() then [op] else []
    requires after.pending.failed == k.pending.failed + if op.Succeeded() then [] else [op]
    ensures NotesInv(after, n0)
  {
    hide Announced, AllAnnounced, Taken;
    var announced := Announced(k.notes, k.blockNumber) + k.executed;
    assert (announced + [op])[..|announced|] == announced;
    assert Announced(k.notes, k.blockNumber) + after.executed == announced + [op];
    var all := AllAnnounced(k.notes) + k.executed;
    assert AllAnnounced(k.notes) + after.executed == all + [op];
    assert Requests(all + [op]) == Requests(all) + [RequestOf(op)];
  }

  lemma PriorityStepKeepsNotes(k: Keeper, n0: nat)
    requires NotesInv(k, n0) && k.priority != []
    ensures NotesInv(PriorityStep(k), n0)
  {
    hide NotesInv, Seal, ExecutePriority;
    var request := k.priority[0];
    if k.pending.chunksLeft < PriorityChunks(request.data) {
      NotifyKeepsNotes(k, n0);
      SealKeepsNotes(Notify(k), n0);
    } else if ExecutePriority(k.state, request.data).Done? {
      var op := ExecutedPriority(request, ExecutePriority(k.state, request.data).value.op, k.pending.opIndex);
      assert k.pending.failed + [] == k.pending.failed;
      RecordKeepsNotes(k, n0, PriorityStep(k), op);
    } else {
      HaltKeepsNotes(k, n0);
    }
  }

  lemma HaltKeepsNotes(k: Keeper, n0: nat)
    requires NotesInv(k, n0)
    ensures NotesInv(k.(halted := true), n0)
  {
  }

  lemma TxStepKeepsNotes(k: Keeper, n0: nat)
    requires NotesInv(k, n0) && k.txs != []
    ensures NotesInv(TxStep(k), n0)
  {
    hide NotesInv, Seal, ExecuteTx, TxChunks;
    var tx := k.txs[0];
    var o := ExecuteTx(k.state, tx);
    if k.pending.chunksLeft < TxChunks(k.state.index.Keys, tx) {
      NotifyKeepsNotes(k, n0);
      SealKeepsNotes(Notify(k), n0);
    } else if TxStep(k) == k.(halted := true) {
      HaltKeepsNotes(k, n0);
    } else if o.Done? {
      assert k.pending.failed + [] == k.pending.failed;
      RecordKeepsNotes(k, n0, TxStep(k), ExecutedTx(tx, Success(o.value.op, k.pending.opIndex)));
    } else {
      assert k.pending.success + [] == k.pending.success;
      RecordKeepsNotes(k, n0, TxStep(k), ExecutedTx(tx, Failure(o.reason)));
    }
  }

  lemma FinishKeepsNotes(k: Keeper, n0: nat)
    requires NotesInv(k, n0)
    ensures NotesInv(Finish(k), n0)
  {
    hide Seal, Only, Requests, Announced, AllAnnounced, Taken;
    var aged := if k.pending.success == [] then k
                else k.(pending := k.pending.(iteration := k.pending.iteration + 1));
    assert NotesInv(aged, n0);
    if k.pending.success != [] && aged.pending.iteration > MAX_ITERATIONS {
      NotifyKeepsNotes(aged, n0);
      SealKeepsNotes(Notify(aged), n0);
      NotifyKeepsNotes(Seal(Notify(aged)), n0);
    } else {
      NotifyKeepsNotes(aged, n0);
    }
  }

  lemma KeeperStepKeepsNotes(k: Keeper, n0: nat)
    requires NotesInv(k, n0)
    ensures NotesInv(KeeperStep(k), n0)
  {
    hide NotesInv, PriorityStep, TxStep, Finish;
    if Running(k) {
      if k.priority != [] {
        PriorityStepKeepsNotes(k, n0);
      } else if k.txs != [] {
        TxStepKeepsNotes(k, n0);
      } else {
        FinishKeepsNotes(k, n0);
      }
    }
  }

  lemma AcceptKeepsNotes(k: Keeper, n0: nat, priority: seq<PriorityOp>, txs: seq<Tx>)
    requires NotesInv(k, n0) && k.executed == []
    ensures NotesInv(Accept(k, priority, txs), n0)
  {
  }

  lemma InitialNotes(k: Keeper)
    requires Initial(k)
    ensures NotesInv(k, k.blockNumber)
  {
  }

  /** Between mini-blocks: what was announced is exactly the requests taken, in order; and what was announced
      under a block's number is exactly that block's transactions, sealed or pending. */
  lemma AnnouncedTruthfully(k: Keeper, n0: nat, number: nat)
    requires NotesInv(k, n0) && k.executed == []
    ensures Requests(AllAnnounced(k.notes)) == Taken(k.commits) + k.pending.items
    ensures n0 <= number < k.blockNumber ==>
              Announces(Announced(k.notes, number), k.commits[number - n0].block.transactions)
    ensures number == k.blockNumber ==>
              Announces(Announced(k.notes, number), k.pending.success + k.pending.failed)
    ensures number > k.blockNumber ==> Announced(k.notes, number) == []
  {
    assert AllAnnounced(k.notes) + [] == AllAnnounced(k.notes);
    if number == k.blockNumber {
      assert Announced(k.notes, number) + [] == Announced(k.notes, number);
    } else if n0 <= number < k.blockNumber {
      var i := number - n0;
      assert Announces(Announced(k.notes, n0 + i), k.commits[i].block.transactions);
    } else if number > k.blockNumber {
      NothingAhead(k.notes, number);
    }
  }
}
