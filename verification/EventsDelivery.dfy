/** Delivery of verified blocks: for every history of the rollup contract, reverts included, the restorer hands on
    blocks 1, 2, 3, ... once each, with the transaction that committed the surviving version. */
module EventsDelivery {
  import opened Types
  import opened EventsStates

  // ---------- The contract ----------

  datatype ContractEvent = Committed(txHash: nat) | Verified(txHash: nat) | Reverted(total: nat, txHash: nat)

  /** The transactions that committed the blocks standing now, and how many of those are verified. */
  datatype Contract = Contract(chain: seq<nat>, verified: nat)

  const NEW_CONTRACT: Contract := Contract([], 0)

  predicate Sane(c: Contract) {
    c.verified <= |c.chain|
  }

  /** Only the next block is committed, only the next committed block verified, and no verified block reverted. */
  predicate Legal(c: Contract, e: ContractEvent) {
    match e
    case Committed(_) => true
    case Verified(_) => c.verified < |c.chain|
    case Reverted(total, _) => c.verified <= total <= |c.chain|
  }

  function Emit(c: Contract, e: ContractEvent): Contract {
    match e
    case Committed(tx) => c.(chain := c.chain + [tx])
    case Verified(_) => c.(verified := c.verified + 1)
    case Reverted(total, _) => if total <= |c.chain| then c.(chain := c.chain[..total]) else c
  }

  /** The log of an event. `indexed` says whether a revert's numbers are topics; the contract declares them as data. */
  function LogOf(c: Contract, e: ContractEvent, indexed: bool): Log {
    match e
    case Committed(tx) => Log(CommitLog, [|c.chain| + 1], tx)
    case Verified(tx) => Log(VerifyLog, [c.verified + 1], tx)
    case Reverted(total, tx) => Log(RevertLog, if indexed then [c.verified, total] else [], tx)
  }

  function After(c: Contract, es: seq<ContractEvent>): Contract {
    if es == [] then c else Emit(After(c, es[..|es| - 1]), es[|es| - 1])
  }

  predicate AllLegal(c: Contract, es: seq<ContractEvent>) {
    es == [] || (AllLegal(c, es[..|es| - 1]) && Legal(After(c, es[..|es| - 1]), es[|es| - 1]))
  }

  function LogsOf(c: Contract, es: seq<ContractEvent>, indexed: bool): seq<Log> {
    if es == [] then [] else
    LogsOf(c, es[..|es| - 1], indexed) + [LogOf(After(c, es[..|es| - 1]), es[|es| - 1], indexed)]
  }

  predicate NoReverts(es: seq<ContractEvent>) {
    forall i | 0 <= i < |es| :: !es[i].Reverted?
  }

  lemma {:induction false} AfterConcat(c: Contract, a: seq<ContractEvent>, b: seq<ContractEvent>)
    ensures After(c, a + b) == After(After(c, a), b)
    ensures AllLegal(c, a + b) <==> AllLegal(c, a) && AllLegal(After(c, a), b)
  {
    if b == [] {
      assert a + b == a;
    } else {
      assert (a + b)[..|a + b| - 1] == a + b[..|b| - 1];
      AfterConcat(c, a, b[..|b| - 1]);
    }
  }

  lemma {:induction false} StaysSane(c: Contract, es: seq<ContractEvent>)
    requires Sane(c) && AllLegal(c, es)
    ensures Sane(After(c, es))
    ensures c.verified <= After(c, es).verified && After(c, es).chain[..c.verified] == c.chain[..c.verified]
  {
    if es != [] {
      StaysSane(c, es[..|es| - 1]);
      var before, next := After(c, es[..|es| - 1]), After(c, es);
      assert next.chain[..c.verified] == before.chain[..c.verified];
    }
  }

  // ---------- What the restorer tracks ----------

  /** Blocks `from + 1` to `to` with the transactions that committed them. */
  function Numbered(chain: seq<nat>, from: nat, to: nat): seq<BlockEvent>
    requires from <= to <= |chain|
  {
    seq(to - from, i requires 0 <= i < to - from => BlockEvent(from + i + 1, chain[from + i]))
  }

  /** With `done` blocks forgotten, the lists hold exactly the standing blocks after them. */
  ghost predicate Tracks(s: Events, c: Contract, done: nat) {
    && done <= c.verified <= |c.chain|
    && s.committed == Numbered(c.chain, done, |c.chain|)
    && |s.verified| == c.verified - done
    && forall i | 0 <= i < |s.verified| :: s.verified[i].blockNum == done + i + 1
  }

  /** The first verified-many committed events are those of the verified blocks, and there are that many. */
  lemma VerifiedMatchCommitted(s: Events, c: Contract, done: nat)
    requires Tracks(s, c, done)
    ensures |s.verified| <= |s.committed|
    ensures forall i | 0 <= i < |s.verified| :: s.committed[i].blockNum == s.verified[i].blockNum
    ensures s.committed[..|s.verified|] == Numbered(c.chain, done, c.verified)
  {
  }

  lemma {:induction false} DropKeepsNumbered(chain: seq<nat>, from: nat, to: nat, total: nat)
    requires from <= total <= |chain| && from <= to <= |chain|
    ensures DropAbove(Numbered(chain, from, to), total) ==
            Numbered(chain[..total], from, if to <= total then to else total)
  {
    if from < to {
      var all := Numbered(chain, from, to);
      assert all[..|all| - 1] == Numbered(chain, from, to - 1);
      DropKeepsNumbered(chain, from, to - 1, total);
    }
  }

  lemma ApplyTracks(s: Events, c: Contract, done: nat, e: ContractEvent)
    requires Tracks(s, c, done) && Legal(c, e)
    ensures Readable(LogOf(c, e, true)) && Tracks(ApplyLog(s, LogOf(c, e, true)), Emit(c, e), done)
  {
    if e.Reverted? {
      DropKeepsNumbered(c.chain, done, |c.chain|, e.total);
    }
  }

  lemma {:induction false} ApplyAllTracks(s: Events, c: Contract, done: nat, es: seq<ContractEvent>)
    requires Tracks(s, c, done) && AllLegal(c, es)
    ensures var r := ApplyLogs(s, LogsOf(c, es, true));
            r.Some? && Tracks(r.value, After(c, es), done) && r.value.lastWatched == s.lastWatched
  {
    if es != [] {
      hide Tracks;
      var n := |es| - 1;
      ApplyAllTracks(s, c, done, es[..n]);
      var logs := LogsOf(c, es, true);
      assert logs[..|logs| - 1] == LogsOf(c, es[..n], true);
      ApplyTracks(ApplyLogs(s, logs[..|logs| - 1]).value, After(c, es[..n]), done, es[n]);
    }
  }

  /** Without topics on reverts, the logs are read to the end exactly when there is no revert among them. */
  lemma {:induction false} DeclaredLogs(s: Events, c: Contract, es: seq<ContractEvent>)
    ensures ApplyLogs(s, LogsOf(c, es, false)).Some? <==> NoReverts(es)
    ensures NoReverts(es) ==> LogsOf(c, es, false) == LogsOf(c, es, true)
  {
    if es != [] {
      var n := |es| - 1;
      DeclaredLogs(s, c, es[..n]);
      var logs := LogsOf(c, es, false);
      assert logs[..|logs| - 1] == LogsOf(c, es[..n], false);
    }
  }

  // ---------- Rounds ----------

  function Flat(blocks: seq<seq<ContractEvent>>): seq<ContractEvent> {
    if blocks == [] then [] else Flat(blocks[..|blocks| - 1]) + blocks[|blocks| - 1]
  }

  lemma {:induction false} FlatConcat(a: seq<seq<ContractEvent>>, b: seq<seq<ContractEvent>>)
    ensures Flat(a + b) == Flat(a) + Flat(b)
  {
    if b == [] {
      assert a + b == a;
    } else {
      assert (a + b)[..|a + b| - 1] == a + b[..|b| - 1];
      FlatConcat(a, b[..|b| - 1]);
    }
  }

  /** The contract after Ethereum block `n` of a history that lists the events of each block. */
  function At(history: seq<seq<ContractEvent>>, n: nat): Contract
    requires n < |history|
  {
    After(NEW_CONTRACT, Flat(history[..n + 1]))
  }

  /** The events after one block up to another. */
  function Between(history: seq<seq<ContractEvent>>, from: nat, to: nat): seq<ContractEvent>
    requires from <= to < |history|
  {
    Flat(history[from + 1..to + 1])
  }

  /** The node's answer to a query for logs; a range that ends before it starts has none. */
  function LogsBetween(history: seq<seq<ContractEvent>>, indexed: bool, from: nat, to: nat): seq<Log> {
    if 1 <= from <= to < |history| then LogsOf(At(history, from - 1), Between(history, from - 1, to), indexed) else []
  }

  function Node(history: seq<seq<ContractEvent>>, indexed: bool): (nat, nat) -> seq<Log> {
    (from: nat, to: nat) => LogsBetween(history, indexed, from, to)
  }

  /** All rounds, one for each confirmed head, and everything they delivered. */
  function Rounds(history: seq<seq<ContractEvent>>, indexed: bool, genesis: nat, heads: seq<nat>, step: nat)
    : Option<(Events, seq<BlockEvent>)>
  {
    if heads == [] then Some((Events([], [], genesis), [])) else
    match Rounds(history, indexed, genesis, heads[..|heads| - 1], step)
    case None => None
    case Some(before) =>
      match Round(before.0, heads[|heads| - 1], step, Node(history, indexed))
      case None => None
      case Some(next) => Some((next.0, before.1 + next.1))
  }

  /** The block up to which the rounds look. */
  function Watched(genesis: nat, heads: seq<nat>, step: nat): nat {
    if heads == [] then genesis else WindowEnd(Watched(genesis, heads[..|heads| - 1], step), heads[|heads| - 1], step)
  }

  predicate Monotone(genesis: nat, heads: seq<nat>, bound: nat) {
    && genesis < bound
    && (forall i | 0 <= i < |heads| :: genesis <= heads[i] < bound)
    && (forall i, j | 0 <= i < j < |heads| :: heads[i] <= heads[j])
  }

  lemma {:induction false} WatchedStaysBehind(genesis: nat, heads: seq<nat>, step: nat, bound: nat)
    requires Monotone(genesis, heads, bound)
    ensures genesis <= Watched(genesis, heads, step) < bound
    ensures heads != [] ==> Watched(genesis, heads, step) <= heads[|heads| - 1]
    ensures heads != [] ==> Watched(genesis, heads[..|heads| - 1], step) <= Watched(genesis, heads, step)
  {
    if heads != [] {
      var n := |heads| - 1;
      WatchedStaysBehind(genesis, heads[..n], step, bound);
      WindowAdvances(Watched(genesis, heads[..n], step), heads[n], step);
    }
  }

  /** A contract deployed no earlier than the genesis block, with a legal history. */
  ghost predicate LegalHistory(history: seq<seq<ContractEvent>>, genesis: nat) {
    genesis < |history| && At(history, genesis) == NEW_CONTRACT && AllLegal(NEW_CONTRACT, Flat(history))
  }

  lemma HistoryStep(history: seq<seq<ContractEvent>>, genesis: nat, from: nat, to: nat)
    requires LegalHistory(history, genesis) && from <= to < |history|
    ensures At(history, to) == After(At(history, from), Between(history, from, to))
    ensures AllLegal(At(history, from), Between(history, from, to)) && Sane(At(history, from))
  {
    hide After, AllLegal, Flat;
    assert history[..to + 1] == history[..from + 1] + history[from + 1..to + 1];
    assert history == history[..to + 1] + history[to + 1..];
    FlatConcat(history[..from + 1], history[from + 1..to + 1]);
    FlatConcat(history[..to + 1], history[to + 1..]);
    AfterConcat(NEW_CONTRACT, Flat(history[..from + 1]), Between(history, from, to));
    AfterConcat(NEW_CONTRACT, Flat(history[..to + 1]), Flat(history[to + 1..]));
    StaysSane(NEW_CONTRACT, Flat(history[..from + 1]));
  }

  /** Where a round leaves the restorer, and what it has delivered in all. */
  ghost predicate Delivered(s: Events, delivered: seq<BlockEvent>, c: Contract) {
    && Sane(c)
    && delivered == Numbered(c.chain, 0, c.verified)
    && |s.verified| <= c.verified
    && Tracks(s, c, c.verified - |s.verified|)
  }

  lemma ForgetTracks(s: Events, delivered: seq<BlockEvent>, c: Contract)
    requires Delivered(s, delivered, c)
    ensures Forget(s).Some? && Tracks(Forget(s).value, c, c.verified) && Forget(s).value.lastWatched == s.lastWatched
  {
    assert Numbered(c.chain, c.verified - |s.verified|, |c.chain|)[|s.verified|..]
        == Numbered(c.chain, c.verified, |c.chain|);
  }

  lemma DeliverMore(delivered: seq<BlockEvent>, c: Contract, s: Events, next: Contract)
    requires Sane(c) && delivered == Numbered(c.chain, 0, c.verified)
    requires Tracks(s, next, c.verified) && next.chain[..c.verified] == c.chain[..c.verified]
    ensures |s.verified| <= |s.committed| && Delivered(s, delivered + s.committed[..|s.verified|], next)
  {
    assert forall i | 0 <= i < c.verified :: next.chain[i] == next.chain[..c.verified][i] == c.chain[i];
    assert delivered + Numbered(next.chain, c.verified, next.verified) == Numbered(next.chain, 0, next.verified);
  }

  lemma RoundDelivers(s: Events, delivered: seq<BlockEvent>, c: Contract, es: seq<ContractEvent>,
                      latest: nat, step: nat, logs: (nat, nat) -> seq<Log>)
    requires Delivered(s, delivered, c) && AllLegal(c, es) && s.lastWatched <= latest
    requires if latest == s.lastWatched then es == []
             else logs(s.lastWatched + 1, WindowEnd(s.lastWatched, latest, step)) == LogsOf(c, es, true)
    ensures var r := Round(s, latest, step, logs);
            && r.Some? && Delivered(r.value.0, delivered + r.value.1, After(c, es))
            && r.value.0.lastWatched == WindowEnd(s.lastWatched, latest, step)
  {
    hide Tracks, Numbered;
    ForgetTracks(s, delivered, c);
    var rest := Forget(s).value.(lastWatched := WindowEnd(s.lastWatched, latest, step));
    TracksLists(Forget(s).value, rest, c, c.verified);
    ApplyAllTracks(rest, c, c.verified, es);
    StaysSane(c, es);
    DeliverMore(delivered, c, ApplyLogs(rest, LogsOf(c, es, true)).value, After(c, es));
  }

  lemma TracksLists(s: Events, t: Events, c: Contract, done: nat)
    requires Tracks(s, c, done) && t == s.(lastWatched := t.lastWatched)
    ensures Tracks(t, c, done)
  {
  }

  /** For every legal history and every sequence of rounds under a head that never falls back: if a revert's numbers
      are topics, or nothing was reverted in the range looked at, the rounds cover exactly that range and deliver
      exactly the verified blocks, in order, once each, by the transactions that committed the versions that stood;
      and otherwise the restorer aborts. */
  lemma {:induction false} DeliversVerifiedBlocks(history: seq<seq<ContractEvent>>, indexed: bool, genesis: nat,
                                                  heads: seq<nat>, step: nat)
    requires LegalHistory(history, genesis) && Monotone(genesis, heads, |history|)
    ensures genesis <= Watched(genesis, heads, step) < |history|
    ensures var r, end := Rounds(history, indexed, genesis, heads, step), Watched(genesis, heads, step);
            && (r.Some? <==> indexed || NoReverts(Between(history, genesis, end)))
            && (r.Some? ==> r.value.0.lastWatched == end && Delivered(r.value.0, r.value.1, At(history, end)))
  {
    hide LegalHistory, Delivered, Round, At, Between, NoReverts, Node, WindowEnd;
    var end := Watched(genesis, heads, step);
    WatchedStaysBehind(genesis, heads, step, |history|);
    if heads == [] {
      NothingYet(history, genesis);
    } else {
      var n := |heads| - 1;
      var last := Watched(genesis, heads[..n], step);
      DeliversVerifiedBlocks(history, indexed, genesis, heads[..n], step);
      var before := Rounds(history, indexed, genesis, heads[..n], step);
      HistoryStep(history, genesis, last, end);
      RangesAdd(history, genesis, last, end);
      if before.Some? {
        OneRound(history, indexed, genesis, before.value, heads[n], step, last, end);
      }
    }
  }

  lemma NothingYet(history: seq<seq<ContractEvent>>, genesis: nat)
    requires LegalHistory(history, genesis)
    ensures NoReverts(Between(history, genesis, genesis))
    ensures Delivered(Events([], [], genesis), [], At(history, genesis))
  {
  }

  lemma RangesAdd(history: seq<seq<ContractEvent>>, a: nat, b: nat, c: nat)
    requires a <= b <= c < |history|
    ensures NoReverts(Between(history, a, c)) <==>
            NoReverts(Between(history, a, b)) && NoReverts(Between(history, b, c))
  {
    assert history[a + 1..c + 1] == history[a + 1..b + 1] + history[b + 1..c + 1];
    FlatConcat(history[a + 1..b + 1], history[b + 1..c + 1]);
    var x, y := Between(history, a, b), Between(history, b, c);
    assert forall i | 0 <= i < |x| :: (x + y)[i] == x[i];
    assert forall i | 0 <= i < |y| :: (x + y)[|x| + i] == y[i];
  }

  lemma OneRound(history: seq<seq<ContractEvent>>, indexed: bool, genesis: nat, before: (Events, seq<BlockEvent>),
                 latest: nat, step: nat, last: nat, end: nat)
    requires LegalHistory(history, genesis) && last <= latest < |history| && end == WindowEnd(last, latest, step)
    requires last <= end < |history|
    requires before.0.lastWatched == last && Delivered(before.0, before.1, At(history, last))
    ensures var r := Round(before.0, latest, step, Node(history, indexed));
            && (r.Some? <==> indexed || NoReverts(Between(history, last, end)))
            && (r.Some? ==>
                  r.value.0.lastWatched == end && Delivered(r.value.0, before.1 + r.value.1, At(history, end)))
  {
    hide LegalHistory, At, LogsOf, AllLegal, After, Delivered;
    var logs := Node(history, indexed);
    var c, es := At(history, last), Between(history, last, end);
    HistoryStep(history, genesis, last, end);
    if latest == last {
      assert es == [];
      RoundDelivers(before.0, before.1, c, es, latest, step, logs);
    } else {
      assert logs(last + 1, end) == LogsOf(c, es, indexed);
      ForgetTracks(before.0, before.1, c);
      DeclaredLogs(Forget(before.0).value.(lastWatched := end), c, es);
      if indexed || NoReverts(es) {
        RoundDelivers(before.0, before.1, c, es, latest, step, logs);
      }
    }
  }

  // ---------- Catching up ----------

  /** The confirmed head stays at `h` over the last `n` rounds. */
  predicate Rests(heads: seq<nat>, h: nat, n: nat) {
    n <= |heads| && forall i | |heads| - n <= i < |heads| :: heads[i] == h
  }

  /** Under a resting head, `n` rounds look at `step + 1` blocks each until they reach it. */
  lemma {:induction false} WatchedAdvances(genesis: nat, heads: seq<nat>, step: nat, bound: nat, h: nat, n: nat)
    requires Monotone(genesis, heads, bound) && Rests(heads, h, n) && n > 0
    ensures var before := Watched(genesis, heads[..|heads| - n], step);
            Watched(genesis, heads, step) == if before + n * (step + 1) >= h then h else before + n * (step + 1)
    decreases n
  {
    hide Watched;
    var m := |heads| - 1;
    var last := Watched(genesis, heads[..m], step);
    WatchedOnce(genesis, heads, step);
    WatchedStaysBehind(genesis, heads, step, bound);
    if n == 1 {
      assert heads[..|heads| - n] == heads[..m];
      WatchedBelow(genesis, heads, step, bound);
    } else {
      assert heads[..m][..m - (n - 1)] == heads[..|heads| - n];
      WatchedAdvances(genesis, heads[..m], step, bound, h, n - 1);
      assert n * (step + 1) == (n - 1) * (step + 1) + (step + 1);
    }
  }

  lemma WatchedOnce(genesis: nat, heads: seq<nat>, step: nat)
    requires heads != []
    ensures var m := |heads| - 1;
            Watched(genesis, heads, step) == WindowEnd(Watched(genesis, heads[..m], step), heads[m], step)
  {
  }

  /** What was watched before a round is below the head of that round. */
  lemma WatchedBelow(genesis: nat, heads: seq<nat>, step: nat, bound: nat)
    requires Monotone(genesis, heads, bound) && heads != []
    ensures Watched(genesis, heads[..|heads| - 1], step) <= heads[|heads| - 1]
  {
    var m := |heads| - 1;
    WatchedStaysBehind(genesis, heads[..m], step, bound);
  }

  /** Once the head has rested at `h` for enough rounds to walk there from the genesis block, the restorer has looked at
      everything up to `h`, and if it was not stopped by a revert it has delivered every block verified by then. */
  lemma CatchesUp(history: seq<seq<ContractEvent>>, indexed: bool, genesis: nat, heads: seq<nat>, step: nat, h: nat,
                  n: nat)
    requires LegalHistory(history, genesis) && Monotone(genesis, heads, |history|)
    requires Rests(heads, h, n) && n > 0 && genesis + n * (step + 1) >= h && genesis <= h < |history|
    ensures var r := Rounds(history, indexed, genesis, heads, step);
            && (r.Some? <==> indexed || NoReverts(Between(history, genesis, h)))
            && (r.Some? ==>
                  && r.value.0.lastWatched == h && Sane(At(history, h))
                  && r.value.1 == Numbered(At(history, h).chain, 0, At(history, h).verified))
  {
    hide LegalHistory, Rounds, At, Between, NoReverts, Watched, Numbered, Tracks;
    WatchedAdvances(genesis, heads, step, |history|, h, n);
    assert Monotone(genesis, heads[..|heads| - n], |history|);
    WatchedStaysBehind(genesis, heads[..|heads| - n], step, |history|);
    DeliversVerifiedBlocks(history, indexed, genesis, heads, step);
  }
}
