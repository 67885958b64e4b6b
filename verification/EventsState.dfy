/** The restorer's view of the rollup contract's logs: which blocks were committed and which of them verified. */
module EventsStates {
  import opened Types

  datatype BlockEvent = BlockEvent(blockNum: nat, txHash: nat)

  datatype Kind = CommitLog | VerifyLog | RevertLog

  /** `args` are the log's topics after the event's signature. */
  datatype Log = Log(kind: Kind, args: seq<nat>, txHash: nat)

  datatype Events = Events(committed: seq<BlockEvent>, verified: seq<BlockEvent>, lastWatched: nat)

  function DropAbove(events: seq<BlockEvent>, total: nat): seq<BlockEvent> {
    if events == [] then [] else
    DropAbove(events[..|events| - 1], total) +
    if events[|events| - 1].blockNum > total then [] else [events[|events| - 1]]
  }

  /** A log without the topics that are read from it aborts the restorer. */
  predicate Readable(log: Log) {
    if log.kind.RevertLog? then |log.args| == 2 else |log.args| >= 1
  }

  function ApplyLog(s: Events, log: Log): Events
    requires Readable(log)
  {
    match log.kind
    case RevertLog => s.(committed := DropAbove(s.committed, log.args[1]))
    case VerifyLog => s.(verified := s.verified + [BlockEvent(log.args[0], log.txHash)])
    case CommitLog => s.(committed := s.committed + [BlockEvent(log.args[0], log.txHash)])
  }

  function ApplyLogs(s: Events, logs: seq<Log>): Option<Events> {
    if logs == [] then Some(s) else
    match ApplyLogs(s, logs[..|logs| - 1])
    case None => None
    case Some(before) => if Readable(logs[|logs| - 1]) then Some(ApplyLog(before, logs[|logs| - 1])) else None
  }

  lemma {:induction false} ApplyStops(s: Events, logs: seq<Log>, k: nat)
    requires k <= |logs| && ApplyLogs(s, logs[..k]).None?
    ensures ApplyLogs(s, logs).None?
    decreases |logs| - k
  {
    if k == |logs| {
      assert logs[..k] == logs;
    } else {
      assert logs[..k + 1][..k] == logs[..k];
      ApplyStops(s, logs, k + 1);
    }
  }

  /** Forget what was verified, on both lists; None when there is less committed than verified. */
  function Forget(s: Events): Option<Events> {
    if |s.verified| > |s.committed| then None
    else Some(s.(committed := s.committed[|s.verified|..], verified := []))
  }

  /** The last block to look at next. */
  function WindowEnd(last: nat, latest: nat, step: nat): nat {
    if latest == last then last
    else if last + 1 + step >= latest then latest
    else last + 1 + step
  }

  /** Looking moves forward, and no further than the confirmed head, exactly when the head has not fallen back. */
  lemma WindowAdvances(last: nat, latest: nat, step: nat)
    ensures last <= WindowEnd(last, latest, step) <= latest <==> last <= latest
    ensures last < latest ==> last < WindowEnd(last, latest, step)
  {
  }

  /** Under a head that has not fallen back, the window is the widest there may be: it ends at the greatest block that
      is confirmed and no more than `step` beyond its first. */
  lemma WindowIsWidest(last: nat, latest: nat, step: nat, end: nat)
    requires last <= latest
    ensures WindowEnd(last, latest, step) <= latest && WindowEnd(last, latest, step) <= last + 1 + step
    ensures end <= latest && end <= last + 1 + step ==> end <= WindowEnd(last, latest, step)
  {
  }

  /** One round: forget what the last one delivered, look at a window of logs, and deliver. `logs` answers the query
      for the logs between two block numbers. None when the restorer aborts. */
  function Round(s: Events, latest: nat, step: nat, logs: (nat, nat) -> seq<Log>): Option<(Events, seq<BlockEvent>)> {
    match Forget(s)
    case None => None
    case Some(rest) =>
      var end := WindowEnd(s.lastWatched, latest, step);
      var found := if latest == s.lastWatched then [] else logs(s.lastWatched + 1, end);
      match ApplyLogs(rest.(lastWatched := end), found)
      case None => None
      case Some(next) =>
        if |next.verified| > |next.committed| then None
        else Some((next, next.committed[..|next.verified|]))
  }

  class EventsState {
    var committed: seq<BlockEvent>
    var verified: seq<BlockEvent>
    var lastWatched: nat

    ghost function Contents(): Events
      reads this
    {
      Events(committed, verified, lastWatched)
    }

    constructor (genesisBlock: nat)
      ensures Contents() == Events([], [], genesisBlock)
    {
      committed, verified, lastWatched := [], [], genesisBlock;
    }

    /** False when there is less committed than verified, on which draining aborts. */
    method RemoveVerifiedEvents() returns (ok: bool)
      modifies this`committed, this`verified
      ensures ok == Forget(old(Contents())).Some?
      ensures ok ==> Some(Contents()) == Forget(old(Contents()))
    {
      var count := |verified|;
      verified := [];
      if count > |committed| {
        return false;
      }
      committed := committed[count..];
      ok := true;
    }

    /** Removes, in place, the committed events above a number. */
    method RemoveReverted(total: nat)
      modifies this`committed
      ensures committed == DropAbove(old(committed), total)
    {
      ghost var all := committed;
      ghost var seen := 0;
      var i := 0;
      while i != |committed|
        invariant seen <= |all| && i <= |committed|
        invariant committed[i..] == all[seen..]
        invariant committed[..i] == DropAbove(all[..seen], total)
        decreases |all| - seen
      {
        assert all[seen] == committed[i];
        assert all[..seen + 1][..seen] == all[..seen];
        assert all[seen..][1..] == all[seen + 1..];
        if committed[i].blockNum > total {
          assert committed[i..][1..] == committed[i + 1..];
          committed := committed[..i] + committed[i + 1..];
        } else {
          assert committed[..i + 1] == committed[..i] + [committed[i]];
          i := i + 1;
        }
        seen := seen + 1;
      }
      assert |all[seen..]| == 0 && all[..seen] == all && committed[..i] == committed;
    }

    /** None when a log lacks the topics read from it; otherwise whether there were any logs. */
    method UpdateBlocksState(logs: seq<Log>) returns (r: Option<bool>)
      modifies this`committed, this`verified
      ensures r.Some? == ApplyLogs(old(Contents()), logs).Some?
      ensures r.Some? ==> r.value == (logs != []) && Some(Contents()) == ApplyLogs(old(Contents()), logs)
    {
      if logs == [] {
        return Some(false);
      }
      for i := 0 to |logs|
        invariant Some(Contents()) == ApplyLogs(old(Contents()), logs[..i])
      {
        var log := logs[i];
        assert logs[..i + 1][..i] == logs[..i];
        if |log.args| < 1 || (log.kind.RevertLog? && |log.args| != 2) {
          ApplyStops(old(Contents()), logs, i + 1);
          return None;
        }
        if log.kind.RevertLog? {
          RemoveReverted(log.args[1]);
        }
        var block := BlockEvent(log.args[0], log.txHash);
        if log.kind.VerifyLog? {
          verified := verified + [block];
        } else if log.kind.CommitLog? {
          committed := committed + [block];
        }
      }
      assert logs[..|logs|] == logs;
      r := Some(true);
    }

    method GetOnlyVerifiedCommittedEvents() returns (r: Option<seq<BlockEvent>>)
      ensures r == if |verified| > |committed| then None else Some(committed[..|verified|])
    {
      var count := |verified|;
      r := if count > |committed| then None else Some(committed[..count]);
    }

    /** A round as the driver runs it: it asks for the verified blocks only when it found any events. */
    method UpdateAndDeliver(latest: nat, step: nat, logs: (nat, nat) -> seq<Log>) returns (r: Option<seq<BlockEvent>>)
      modifies this
      ensures match Round(old(Contents()), latest, step, logs)
              case None => r.None?
              case Some(next) => r == Some(next.1) && Contents() == next.0
    {
      var start := lastWatched;
      var ok := RemoveVerifiedEvents();
      if !ok {
        return None;
      }
      var found := [];
      var end := lastWatched;
      if latest != lastWatched {
        var from := lastWatched + 1;
        end := if from + step >= latest then latest else from + step;
        found := logs(from, end);
      }
      lastWatched := end;
      var any := UpdateBlocksState(found);
      if any.None? {
        return None;
      }
      if !any.value || committed + verified == [] {
        assert |verified| == 0;
        return Some([]);
      }
      r := GetOnlyVerifiedCommittedEvents();
    }
  }
}
