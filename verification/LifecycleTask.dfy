/**
 The actor's task and its guard, run in place along any life. Other threads may publish
 statuses of their own before each of these.
 */
module LifecycleTask {
  import opened Options
  import opened Supervision
  import opened Lifecycle

  class Task {
    var armed: bool
    var notifyOnCancel: bool
    var cell: Published
    var log: seq<Effect>
    var others: seq<seq<Status>>   // what other threads publish, before each status change here

    ghost predicate Valid()
      reads this
    {
      Consistent(cell)
    }

    constructor (cell: Published, others: seq<seq<Status>>)
      requires Consistent(cell)
      ensures Valid() && armed && !notifyOnCancel && log == []
    {
      this.cell, this.others := cell, others;
      armed, notifyOnCancel, log := true, false, [];
    }

    method Advance(status: Status)
      requires Valid()
      modifies this`cell, this`log, this`others
      ensures Valid() && log == old(log) + [Becomes(status)] && Rank(cell.status) >= Rank(status)
    {
      if others != [] {
        SetAllKeeps(cell, others[0]);
        cell := SetAll(cell, others[0]);
        others := others[1..];
      }
      cell := SetStatus(cell, status);
      log := log + [Becomes(status)];
    }

    method Cleanup(event: Option<SupervisionEvent>)
      requires Valid() && (!armed ==> cell.status == Stopped)
      modifies this
      ensures Valid() && !armed && cell.status == Stopped && notifyOnCancel == old(notifyOnCancel)
      ensures log == old(log) + if old(armed) then Cleaning(event) else []
    {
      if !armed {
        return;
      }
      Advance(Stopping);
      log := log + [TerminateTree];
      if event.Some? {
        log := log + [Emit(event.value)];
      }
      log := log + [LeaveSupervisor];
      Advance(Stopped);
      armed := false;
    }

    /** Runs whenever the guard goes out of scope. */
    method Drop()
      requires Valid() && (!armed ==> cell.status == Stopped)
      modifies this
      ensures Valid() && !armed && cell.status == Stopped
      ensures log == old(log) + if old(armed) then Cleaning(if old(notifyOnCancel) then Some(TASK_CANCELLED) else None) else []
    {
      Cleanup(if notifyOnCancel then Some(TASK_CANCELLED) else None);
    }

    /** The message loop; `None` when it is cancelled. */
    method MessageLoop(turns: seq<Turn>) returns (ending: Option<Turn>)
      modifies this`log
      ensures ending == if Ending(turns) == CancelledTurn then None else Some(Ending(turns))
      ensures log == old(log) + if Ending(turns) == Killed then [TerminateTree] else []
    {
      var i := 0;
      while i < |turns|
        invariant 0 <= i <= |turns| && Ending(turns) == Ending(turns[i..]) && log == old(log)
      {
        var turn := turns[i];
        assert turns[i..][0] == turn && turns[i..][1..] == turns[i + 1..];
        match turn
        case CancelledTurn => return None;
        case Continue => i := i + 1;
        case Stop(_) => return Some(turn);
        case Killed =>
          log := log + [TerminateTree];
          return Some(turn);
        case FailedTurn => return Some(turn);
      }
      assert turns[i..] == [];
      return None;
    }

    /** The processing loop up to its terminal event; `None` when it is cancelled. */
    method ProcessingLoop(l: Life) returns (event: Option<SupervisionEvent>)
      requires Valid() && Runs(l)
      modifies this`cell, this`log, this`others
      ensures Valid() && log == old(log) + TaskLog(l.(polled := true))
      ensures Terminal(l.(polled := true)) == if event.Some? then event.value else TASK_CANCELLED
    {
      match l.postStart {
        case Cancelled => return None;
        case Failed => return Some(ActorFailed);
        case Signalled =>
          log := log + [TerminateTree];
          return Some(KILLED);
        case Ok =>
      }
      Advance(Running);
      log := log + [Emit(ActorStarted)];
      var ending := MessageLoop(l.turns);
      if ending.None? {
        return None;
      }
      Advance(Stopping);
      match ending.value {
        case FailedTurn => return Some(ActorFailed);
        case Killed => return Some(ActorTerminated(true, Some("killed")));
        case Stop(reason) =>
          match l.postStop {
            case Cancelled => return None;
            case Failed => return Some(ActorFailed);
            case Signalled =>
              log := log + [TerminateTree];
              return Some(KILLED);
            case Ok => return Some(ActorTerminated(true, reason));
          }
      }
    }

    /** The spawned task, up to the end of its body. */
    method Body(l: Life)
      requires Valid() && armed && notifyOnCancel && Runs(l)
      modifies this
      ensures Valid() && (!armed ==> cell.status == Stopped) && notifyOnCancel
      ensures log == old(log) + TaskLog(l) + if armed then [] else Cleaning(Some(Terminal(l)))
      ensures armed ==> Terminal(l) == TASK_CANCELLED
    {
      if l.polled {
        var event := ProcessingLoop(l);
        if event.Some? {
          Cleanup(event);
        }
      }
    }

    /** `start`, up to the end of its body or of what it spawns. */
    method Start(l: Life)
      requires Valid() && armed && !notifyOnCancel && log == []
      modifies this
      ensures Valid() && (!armed ==> cell.status == Stopped) && notifyOnCancel == Runs(l)
      ensures armed ==> log + Cleaning(if notifyOnCancel then Some(TASK_CANCELLED) else None) == Log(l)
      ensures !armed ==> log == Log(l)
    {
      if !l.unstarted {
        return;
      }
      Advance(Starting);
      if l.preStart == Signalled {
        log := log + [TerminateTree];
      }
      if l.preStart != Ok {
        return;
      }
      if l.linked == Some(false) {
        return;
      }
      notifyOnCancel := true;
      Body(l);
    }

    /** A whole life: wherever the body ends, the guard is dropped. */
    method Live(l: Life)
      requires Valid() && armed && !notifyOnCancel && log == []
      modifies this
      ensures log == Log(l) && CleansUpOnce(log, LastEvent(l)) && Emitted(log) == Events(l)
      ensures !armed && Valid() && cell.status == Stopped && cell.deregistered == 1 && cell.notified == 1
    {
      hide Log, Cleaning, CleansUpOnce, Emitted, Events, LastEvent;
      Start(l);
      Drop();
      LifeIsCleanedUpOnce(l);
      LifeIsSeenWhole(l);
    }
  }
}
