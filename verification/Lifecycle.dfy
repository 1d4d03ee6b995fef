/**
 An actor's life from its start to its cleanup, on every path through it: each hook may
 succeed, fail, or be interrupted by a kill signal, and its task may be cancelled wherever
 it waits. The guard's cleanup has to run exactly once all the same.
 */
module Lifecycle {
  import opened Options
  import opened Supervision

  // ------------------------------------------------------------------ racing status changes

  /** The status byte, and how often an advance of it deregistered the actor and woke the waiters. */
  datatype Published = Published(status: Status, deregistered: nat, notified: nat)

  function Later(a: Status, b: Status): Status { if Rank(a) < Rank(b) then b else a }

  /** One call of `set_status`: its atomic maximum decides who does the cleanup. */
  function SetStatus(s: Published, status: Status): Published
  {
    var previous := s.status;
    Published(Later(previous, status),
              s.deregistered + (if Rank(status) >= Rank(Stopping) && Rank(previous) < Rank(Stopping) then 1 else 0),
              s.notified + (if status == Stopped && Rank(previous) < Rank(Stopped) then 1 else 0))
  }

  function SetAll(s: Published, calls: seq<Status>): Published
    decreases |calls|
  {
    if calls == [] then s else SetAll(SetStatus(s, calls[0]), calls[1..])
  }

  predicate Reached(calls: seq<Status>, status: Status)
  {
    exists i :: 0 <= i < |calls| && Rank(calls[i]) >= Rank(status)
  }

  predicate Consistent(s: Published)
  {
    && s.deregistered == (if Rank(s.status) >= Rank(Stopping) then 1 else 0)
    && s.notified == (if s.status == Stopped then 1 else 0)
  }

  lemma {:induction false} SetAllKeeps(s: Published, calls: seq<Status>)
    requires Consistent(s)
    ensures Consistent(SetAll(s, calls))
    ensures forall x :: Rank(SetAll(s, calls).status) >= Rank(x) <==> Rank(s.status) >= Rank(x) || Reached(calls, x)
    decreases |calls|
  {
    if calls != [] {
      var rest := calls[1..];
      SetAllKeeps(SetStatus(s, calls[0]), rest);
      forall x ensures Reached(calls, x) <==> Rank(calls[0]) >= Rank(x) || Reached(rest, x) {
        if Reached(calls, x) {
          var i :| 0 <= i < |calls| && Rank(calls[i]) >= Rank(x);
          if i > 0 { assert rest[i - 1] == calls[i]; }
        }
        if Reached(rest, x) {
          var i :| 0 <= i < |rest| && Rank(rest[i]) >= Rank(x);
          assert calls[i + 1] == rest[i];
        }
      }
    }
  }

  /** However the calls of any number of threads race, the actor is deregistered once if any call
      reaches Stopping, the waiters are woken once if any reaches Stopped, and never otherwise. */
  lemma RacingStatusChanges(calls: seq<Status>)
    ensures var s := SetAll(Published(Unstarted, 0, 0), calls);
            && s.deregistered == (if Reached(calls, Stopping) then 1 else 0)
            && s.notified == (if Reached(calls, Stopped) then 1 else 0)
            && (forall x :: Rank(s.status) >= Rank(x) <==> x == Unstarted || Reached(calls, x))
  {
    SetAllKeeps(Published(Unstarted, 0, 0), calls);
  }

  // ------------------------------------------------------------------ one life

  datatype SupervisionEvent =
    | ActorStarted
    | ActorTerminated(withState: bool, reason: Option<string>)
    | ActorFailed

  /** What the actor's task does that others can see. */
  datatype Effect = Becomes(status: Status) | TerminateTree | Emit(event: SupervisionEvent) | LeaveSupervisor

  /** How waiting for a hook ends; an error and a panic are both failures. */
  datatype Hook = Cancelled | Ok | Failed | Signalled

  /** How one turn of the message loop ends. */
  datatype Turn = CancelledTurn | Continue | Stop(reason: Option<string>) | Killed | FailedTurn

  /** All that decides the course of a life. A task may be cancelled before it first runs. */
  datatype Life = Life(unstarted: bool, preStart: Hook, linked: Option<bool>, polled: bool,
                       postStart: Hook, turns: seq<Turn>, postStop: Hook)

  /** Whether the actor gets as far as having its task started. */
  predicate Runs(l: Life)
  {
    l.unstarted && l.preStart == Ok && l.linked != Some(false)
  }

  /** The first turn that does not continue; a run that goes on is cancelled in the end. */
  function Ending(turns: seq<Turn>): (r: Turn)
    ensures r != Continue
  {
    if turns == [] then CancelledTurn else if turns[0] == Continue then Ending(turns[1..]) else turns[0]
  }

  const TASK_CANCELLED := ActorTerminated(false, Some("actor_task_cancelled"))
  const KILLED := ActorTerminated(false, Some("killed"))

  /** The one terminal event of a life that runs. */
  function Terminal(l: Life): SupervisionEvent
  {
    if !l.polled then TASK_CANCELLED
    else match l.postStart
      case Cancelled => TASK_CANCELLED
      case Failed => ActorFailed
      case Signalled => KILLED
      case Ok =>
        match Ending(l.turns)
        case CancelledTurn => TASK_CANCELLED
        case FailedTurn => ActorFailed
        case Killed => ActorTerminated(true, Some("killed"))
        case Stop(reason) =>
          (match l.postStop
           case Cancelled => TASK_CANCELLED
           case Failed => ActorFailed
           case Signalled => KILLED
           case Ok => ActorTerminated(true, reason))
  }

  predicate Starts(l: Life) { Runs(l) && l.polled && l.postStart == Ok }

  /** What a supervisor gets to see of a life. */
  function Events(l: Life): seq<SupervisionEvent>
  {
    if !Runs(l) then [] else (if Starts(l) then [ActorStarted] else []) + [Terminal(l)]
  }

  /** What cleaning up does, in order. */
  function Cleaning(event: Option<SupervisionEvent>): seq<Effect>
  {
    [Becomes(Stopping), TerminateTree] + (if event.Some? then [Emit(event.value)] else []) + [LeaveSupervisor, Becomes(Stopped)]
  }

  /** What an actor's task does up to its cleanup. */
  function TaskLog(l: Life): seq<Effect>
  {
    if !l.polled || l.postStart in {Cancelled, Failed} then []
    else if l.postStart == Signalled then [TerminateTree]
    else [Becomes(Running), Emit(ActorStarted)] + StopLog(Ending(l.turns), l.postStop)
  }

  function StopLog(ending: Turn, postStop: Hook): seq<Effect>
  {
    match ending
    case Killed => [TerminateTree, Becomes(Stopping)]
    case FailedTurn => [Becomes(Stopping)]
    case Stop(_) => [Becomes(Stopping)] + if postStop == Signalled then [TerminateTree] else []
    case _ => []
  }

  function Opening(l: Life): seq<Effect>
  {
    if !l.unstarted then [] else if l.preStart == Signalled then [Becomes(Starting), TerminateTree] else [Becomes(Starting)]
  }

  /** The event the cleanup emits. */
  function LastEvent(l: Life): Option<SupervisionEvent> { if Runs(l) then Some(Terminal(l)) else None }

  function BeforeCleaning(l: Life): seq<Effect> { Opening(l) + if Runs(l) then TaskLog(l) else [] }

  /** Everything a life does. */
  function Log(l: Life): seq<Effect> { BeforeCleaning(l) + Cleaning(LastEvent(l)) }

  function Emitted(log: seq<Effect>): seq<SupervisionEvent>
  {
    if log == [] then []
    else Emitted(log[..|log| - 1]) + if log[|log| - 1].Emit? then [log[|log| - 1].event] else []
  }

  lemma {:induction false} EmittedAppend(a: seq<Effect>, b: seq<Effect>)
    ensures Emitted(a + b) == Emitted(a) + Emitted(b)
    decreases |b|
  {
    if b == [] {
      assert a + b == a;
    } else {
      assert (a + b)[..|a + b| - 1] == a + b[..|b| - 1];
      EmittedAppend(a, b[..|b| - 1]);
    }
  }

  lemma EmittedOne(e: Effect)
    ensures Emitted([e]) == if e.Emit? then [e.event] else []
  {
    assert [e][..0] == [];
  }

  lemma CleaningEmits(event: Option<SupervisionEvent>)
    ensures Emitted(Cleaning(event)) == if event.Some? then [event.value] else []
  {
    EmittedOne(Becomes(Stopping)); EmittedOne(TerminateTree); EmittedOne(LeaveSupervisor); EmittedOne(Becomes(Stopped));
    EmittedAppend([Becomes(Stopping)], [TerminateTree]);
    EmittedAppend([LeaveSupervisor], [Becomes(Stopped)]);
    assert [Becomes(Stopping)] + [TerminateTree] == [Becomes(Stopping), TerminateTree];
    assert [LeaveSupervisor] + [Becomes(Stopped)] == [LeaveSupervisor, Becomes(Stopped)];
    var told := if event.Some? then [Emit(event.value)] else [];
    if event.Some? { EmittedOne(Emit(event.value)); }
    EmittedAppend([Becomes(Stopping), TerminateTree], told);
    EmittedAppend([Becomes(Stopping), TerminateTree] + told, [LeaveSupervisor, Becomes(Stopped)]);
  }

  predicate Silent(log: seq<Effect>) { forall i :: 0 <= i < |log| ==> !log[i].Emit? }

  lemma {:induction false} SilentEmitsNothing(log: seq<Effect>)
    requires Silent(log)
    ensures Emitted(log) == []
    decreases |log|
  {
    if log != [] { SilentEmitsNothing(log[..|log| - 1]); }
  }

  lemma StopLogIsSilent(ending: Turn, postStop: Hook)
    ensures Emitted(StopLog(ending, postStop)) == []
  {
    SilentEmitsNothing(StopLog(ending, postStop));
  }

  lemma TaskEmits(l: Life)
    requires Runs(l)
    ensures Emitted(TaskLog(l)) == if Starts(l) then [ActorStarted] else []
  {
    if Starts(l) {
      var stop := StopLog(Ending(l.turns), l.postStop);
      StopLogIsSilent(Ending(l.turns), l.postStop);
      hide StopLog, Ending;
      EmittedAppend([Becomes(Running)], [Emit(ActorStarted)]);
      assert [Becomes(Running)] + [Emit(ActorStarted)] == [Becomes(Running), Emit(ActorStarted)];
      EmittedOne(Becomes(Running));
      EmittedOne(Emit(ActorStarted));
      EmittedAppend([Becomes(Running), Emit(ActorStarted)], stop);
    } else {
      SilentEmitsNothing(TaskLog(l));
    }
  }

  lemma OpeningIsSilent(l: Life)
    ensures Emitted(Opening(l)) == []
  {
    SilentEmitsNothing(Opening(l));
  }

  lemma NothingEmitted()
    ensures Emitted([]) == []
  {
  }

  /** On every path the supervisor sees exactly the events of the life: none if the actor never
      ran, otherwise exactly one terminal event, last, with ActorStarted before it if it started. */
  lemma LifeIsSeenWhole(l: Life)
    ensures Emitted(Log(l)) == Events(l)
  {
    hide TaskLog, Cleaning, Opening, Terminal, Emitted, Starts;
    OpeningIsSilent(l);
    CleaningEmits(LastEvent(l));
    NothingEmitted();
    if Runs(l) { TaskEmits(l); }
    EmittedAppend(Opening(l), if Runs(l) then TaskLog(l) else []);
    EmittedAppend(BeforeCleaning(l), Cleaning(LastEvent(l)));
  }

  predicate IsTerminal(e: SupervisionEvent) { !e.ActorStarted? }

  /** Up to its cleanup a task neither leaves its supervisor nor becomes Stopped, and emits at
      most that it started. */
  predicate Plain(log: seq<Effect>)
  {
    forall e :: e in log ==> e != LeaveSupervisor && e != Becomes(Stopped) && (e.Emit? ==> e.event == ActorStarted)
  }

  lemma BeforeCleaningIsPlain(l: Life)
    ensures Plain(BeforeCleaning(l))
  {
    if Runs(l) {
      var stop := StopLog(Ending(l.turns), l.postStop);
      hide Ending;
      assert Plain(stop);
      assert Plain(TaskLog(l));
    }
  }

  /** The log ends with one cleanup, in its order, and holds no other. */
  predicate CleansUpOnce(log: seq<Effect>, event: Option<SupervisionEvent>)
  {
    var told := if event.Some? then 1 else 0;
    var n := |log|;
    && multiset(log)[LeaveSupervisor] == 1
    && multiset(log)[Becomes(Stopped)] == 1
    && (event.Some? ==> multiset(log)[Emit(event.value)] == 1)
    && n >= 4 + told
    && log[n - 4 - told] == Becomes(Stopping) && log[n - 3 - told] == TerminateTree
    && (event.Some? ==> log[n - 3] == Emit(event.value))
    && log[n - 2] == LeaveSupervisor && log[n - 1] == Becomes(Stopped)
  }

  lemma CleaningOnce(event: Option<SupervisionEvent>)
    ensures CleansUpOnce(Cleaning(event), event)
  {
    var c := Cleaning(event);
    assert c[0] == Becomes(Stopping) && c[1] == TerminateTree;
  }

  lemma Absent(log: seq<Effect>, e: Effect)
    requires e !in log
    ensures multiset(log)[e] == 0
  {
    assert e in multiset(log) <==> e in log;
  }

  lemma StillOnce(before: seq<Effect>, log: seq<Effect>, event: Option<SupervisionEvent>)
    requires Plain(before) && CleansUpOnce(log, event) && (event.Some? ==> IsTerminal(event.value))
    ensures CleansUpOnce(before + log, event)
  {
    Absent(before, LeaveSupervisor);
    Absent(before, Becomes(Stopped));
    if event.Some? { Absent(before, Emit(event.value)); }
    assert forall i :: 0 <= i < |log| ==> (before + log)[|before| + i] == log[i];
  }

  /** On every path the cleanup happens, once, and is the last thing to happen: the actor becomes
      Stopping, terminates its children, emits its terminal event if it ran, leaves its
      supervisor and becomes Stopped, in this order. */
  lemma LifeIsCleanedUpOnce(l: Life)
    ensures CleansUpOnce(Log(l), LastEvent(l))
    ensures LastEvent(l).Some? ==> IsTerminal(LastEvent(l).value)
  {
    assert LastEvent(l).Some? ==> IsTerminal(LastEvent(l).value);
    BeforeCleaningIsPlain(l);
    hide BeforeCleaning, Cleaning, LastEvent, CleansUpOnce;
    CleaningOnce(LastEvent(l));
    StillOnce(BeforeCleaning(l), Cleaning(LastEvent(l)), LastEvent(l));
  }

  // ------------------------------------------------------------------ what the events mean

  /** The message loop ends with this turn: every turn before it continued. */
  predicate LoopEnds(turns: seq<Turn>, turn: Turn)
  {
    exists i :: 0 <= i < |turns| && turns[i] == turn && forall j :: 0 <= j < i ==> turns[j] == Continue
  }

  /** The message loop ends with a stop, whatever its reason. */
  predicate LoopStops(turns: seq<Turn>)
  {
    exists i :: 0 <= i < |turns| && turns[i].Stop? && forall j :: 0 <= j < i ==> turns[j] == Continue
  }

  /** The message loop does not end by itself. */
  predicate LoopIsCancelled(turns: seq<Turn>)
  {
    LoopEnds(turns, CancelledTurn) || forall i :: 0 <= i < |turns| ==> turns[i] == Continue
  }

  /** The turn that ends the loop, if any, is the first that does not continue. */
  lemma {:induction false} EndingIsFirst(turns: seq<Turn>)
    ensures LoopIsCancelled(turns) <==> Ending(turns) == CancelledTurn
    ensures forall turn :: turn != Continue && turn != CancelledTurn ==> (LoopEnds(turns, turn) <==> Ending(turns) == turn)
    ensures LoopStops(turns) <==> Ending(turns).Stop?
    decreases |turns|
  {
    if turns != [] {
      var rest := turns[1..];
      EndingIsFirst(rest);
      if turns[0] == Continue {
        forall turn | turn != Continue ensures LoopEnds(turns, turn) <==> LoopEnds(rest, turn) {
          LoopEndsLater(turns, turn);
        }
        LoopStopsLater(turns);
        assert (forall i :: 0 <= i < |turns| ==> turns[i] == Continue) <==> forall i :: 0 <= i < |rest| ==> rest[i] == Continue by {
          assert forall i :: 0 <= i < |rest| ==> rest[i] == turns[i + 1];
          assert forall i :: 0 < i < |turns| ==> turns[i] == rest[i - 1];
        }
      } else {
        assert LoopEnds(turns, turns[0]);
      }
    }
  }

  lemma LoopEndsLater(turns: seq<Turn>, turn: Turn)
    requires turns != [] && turns[0] == Continue && turn != Continue
    ensures LoopEnds(turns, turn) <==> LoopEnds(turns[1..], turn)
  {
    var rest := turns[1..];
    if LoopEnds(turns, turn) {
      var i :| 0 <= i < |turns| && turns[i] == turn && forall j :: 0 <= j < i ==> turns[j] == Continue;
      assert rest[i - 1] == turn && forall j :: 0 <= j < i - 1 ==> rest[j] == turns[j + 1];
    }
    if LoopEnds(rest, turn) {
      var i :| 0 <= i < |rest| && rest[i] == turn && forall j :: 0 <= j < i ==> rest[j] == Continue;
      assert turns[i + 1] == turn && forall j :: 0 < j < i + 1 ==> turns[j] == rest[j - 1];
    }
  }

  lemma LoopStopsLater(turns: seq<Turn>)
    requires turns != [] && turns[0] == Continue
    ensures LoopStops(turns) <==> LoopStops(turns[1..])
  {
    var rest := turns[1..];
    if LoopStops(turns) {
      var i :| 0 <= i < |turns| && turns[i].Stop? && forall j :: 0 <= j < i ==> turns[j] == Continue;
      LoopEndsLater(turns, turns[i]);
    }
    if LoopStops(rest) {
      var i :| 0 <= i < |rest| && rest[i].Stop? && forall j :: 0 <= j < i ==> rest[j] == Continue;
      LoopEndsLater(turns, rest[i]);
    }
  }

  /** What the supervisor is told, from the course of the life alone. It is told nothing of an
      actor that never ran. The last thing it is told otherwise is that the actor failed, just if
      a hook or a turn did; the reason of a stop whose post-stop hook went well; that it was
      killed, with its state if a turn was signalled and without if a hook was; or that its task
      was cancelled. A stop may itself give the reason "killed". */
  lemma LastEventMeaning(l: Life)
    ensures var seen := Emitted(Log(l));
            var ran := l.unstarted && l.preStart == Ok && l.linked != Some(false);
            var started := ran && l.polled && l.postStart == Ok;
            && |seen| == (if started then 2 else if ran then 1 else 0)
            && (started ==> seen[0] == ActorStarted)
            && (ran ==>
                  var last := seen[|seen| - 1];
                  && (last == ActorFailed <==>
                        l.polled && (|| l.postStart == Failed
                                     || (started && LoopEnds(l.turns, FailedTurn))
                                     || (started && LoopStops(l.turns) && l.postStop == Failed)))
                  && (forall r :: last == ActorTerminated(true, r) <==>
                        started && (|| (LoopEnds(l.turns, Stop(r)) && l.postStop == Ok)
                                    || (LoopEnds(l.turns, Killed) && r == Some("killed"))))
                  && (last == ActorTerminated(false, Some("killed")) <==>
                        l.polled && (|| l.postStart == Signalled
                                     || (started && LoopStops(l.turns) && l.postStop == Signalled)))
                  && (last == ActorTerminated(false, Some("actor_task_cancelled")) <==>
                        || !l.polled || l.postStart == Cancelled
                        || (started && LoopIsCancelled(l.turns))
                        || (started && LoopStops(l.turns) && l.postStop == Cancelled)))
  {
    EndingIsFirst(l.turns);
    LifeIsSeenWhole(l);
    hide Log, Emitted, Ending, LoopEnds, LoopStops, LoopIsCancelled;
  }

  /** The signals a life was given: at most one, since each of them ends it. */
  predicate WasSignalled(l: Life)
  {
    var started := l.linked != Some(false) && l.polled && l.postStart == Ok;
    l.unstarted && (|| l.preStart == Signalled
                    || (l.preStart == Ok && l.linked != Some(false) && l.polled && l.postStart == Signalled)
                    || (l.preStart == Ok && started && LoopEnds(l.turns, Killed))
                    || (l.preStart == Ok && started && LoopStops(l.turns) && l.postStop == Signalled))
  }

  /** The statuses a log publishes never fall. */
  predicate Rising(log: seq<Effect>)
  {
    forall i, j :: 0 <= i < j < |log| && log[i].Becomes? && log[j].Becomes? ==> Rank(log[i].status) <= Rank(log[j].status)
  }

  /** The statuses a log publishes never fall, and stay between two statuses. */
  predicate RisesWithin(log: seq<Effect>, low: Status, high: Status)
  {
    Rising(log) && forall e :: e in log && e.Becomes? ==> Rank(low) <= Rank(e.status) <= Rank(high)
  }

  lemma RisingAppend(a: seq<Effect>, b: seq<Effect>, low: Status, middle: Status, next: Status, high: Status)
    requires RisesWithin(a, low, middle) && RisesWithin(b, next, high) && Rank(low) <= Rank(middle) <= Rank(next) <= Rank(high)
    ensures RisesWithin(a + b, low, high)
  {
    var c := a + b;
    forall i, j | 0 <= i < j < |c| && c[i].Becomes? && c[j].Becomes? ensures Rank(c[i].status) <= Rank(c[j].status) {
      if i < |a| <= j {
        assert c[i] in a && c[j] in b;
      }
    }
  }

  /** How often a log publishes Starting, Running and Stopping, and terminates the children. */
  predicate Counts(log: seq<Effect>, starting: nat, running: nat, stopping: nat, terminations: nat)
  {
    var m := multiset(log);
    && m[Becomes(Starting)] == starting && m[Becomes(Running)] == running
    && m[Becomes(Stopping)] == stopping && m[TerminateTree] == terminations
  }

  lemma CountsAppend(a: seq<Effect>, b: seq<Effect>, i: nat, j: nat, k: nat, n: nat, i': nat, j': nat, k': nat, n': nat)
    requires Counts(a, i, j, k, n) && Counts(b, i', j', k', n')
    ensures Counts(a + b, i + i', j + j', k + k', n + n')
  {
  }

  lemma OpeningLogs(l: Life)
    ensures RisesWithin(Opening(l), Starting, Starting)
    ensures Counts(Opening(l), if l.unstarted then 1 else 0, 0, 0, if l.unstarted && l.preStart == Signalled then 1 else 0)
  {
  }

  lemma CleaningRises(event: Option<SupervisionEvent>)
    ensures RisesWithin(Cleaning(event), Stopping, Stopped)
  {
  }

  lemma CleaningCounts(event: Option<SupervisionEvent>)
    ensures Counts(Cleaning(event), 0, 0, 1, 1)
  {
  }

  lemma StopRises(ending: Turn, postStop: Hook)
    ensures RisesWithin(StopLog(ending, postStop), Stopping, Stopping)
  {
  }

  lemma StopCounts(ending: Turn, postStop: Hook)
    ensures var signalled := ending == Killed || (ending.Stop? && postStop == Signalled);
            Counts(StopLog(ending, postStop), 0, 0, if ending in {CancelledTurn, Continue} then 0 else 1, if signalled then 1 else 0)
  {
  }

  lemma RunningLogs()
    ensures RisesWithin([Becomes(Running), Emit(ActorStarted)], Running, Running)
    ensures Counts([Becomes(Running), Emit(ActorStarted)], 0, 1, 0, 0)
  {
  }

  predicate TaskSignalled(l: Life)
  {
    var ending := Ending(l.turns);
    l.polled && (l.postStart == Signalled || (Starts(l) && (ending == Killed || (ending.Stop? && l.postStop == Signalled))))
  }

  lemma TaskRises(l: Life)
    requires Runs(l)
    ensures RisesWithin(TaskLog(l), Running, Stopping)
    ensures Starts(l) ==> [Becomes(Running), Emit(ActorStarted)] <= TaskLog(l)
  {
    if Starts(l) {
      var running, stop := [Becomes(Running), Emit(ActorStarted)], StopLog(Ending(l.turns), l.postStop);
      hide Ending, StopLog, Counts, RisesWithin;
      StopRises(Ending(l.turns), l.postStop);
      RunningLogs();
      RisingAppend(running, stop, Running, Running, Stopping, Stopping);
    }
  }

  lemma TaskCounts(l: Life)
    requires Runs(l)
    ensures Counts(TaskLog(l), 0, if Starts(l) then 1 else 0, if Starts(l) && Ending(l.turns) != CancelledTurn then 1 else 0,
                   if TaskSignalled(l) then 1 else 0)
  {
    if Starts(l) {
      var ending := Ending(l.turns);
      hide Ending, StopLog, Counts, RisesWithin;
      StopCounts(ending, l.postStop);
      RunningLogs();
      CountsAppend([Becomes(Running), Emit(ActorStarted)], StopLog(ending, l.postStop), 0, 1, 0, 0, 0, 0,
                   if ending in {CancelledTurn, Continue} then 0 else 1,
                   if ending == Killed || (ending.Stop? && l.postStop == Signalled) then 1 else 0);
    }
  }

  lemma LogRises(l: Life)
    ensures Rising(Log(l))
    ensures Starts(l) ==> exists i :: 0 <= i < |Log(l)| - 1 && Log(l)[i] == Becomes(Running) && Log(l)[i + 1] == Emit(ActorStarted)
  {
    var opening, cleaning := Opening(l), Cleaning(LastEvent(l));
    hide TaskLog, Cleaning, Opening, LastEvent, Counts, Rising;
    OpeningLogs(l);
    CleaningRises(LastEvent(l));
    if Runs(l) {
      var task := TaskLog(l);
      TaskRises(l);
      RisingAppend(task, cleaning, Running, Stopping, Stopping, Stopped);
      RisingAppend(opening, task + cleaning, Starting, Starting, Running, Stopped);
      assert Log(l) == opening + (task + cleaning);
      if Starts(l) {
        var i := |opening|;
        assert Log(l)[i] == task[0] && Log(l)[i + 1] == task[1];
      }
    } else {
      RisingAppend(opening, cleaning, Starting, Starting, Stopping, Stopped);
      assert Log(l) == opening + cleaning;
    }
  }

  lemma LogCounts(l: Life)
    ensures Counts(Log(l), if l.unstarted then 1 else 0, if Starts(l) then 1 else 0,
                   if Starts(l) && Ending(l.turns) != CancelledTurn then 2 else 1,
                   if (l.unstarted && l.preStart == Signalled) || (Runs(l) && TaskSignalled(l)) then 2 else 1)
  {
    var opening, cleaning := Opening(l), Cleaning(LastEvent(l));
    hide TaskLog, Cleaning, Opening, LastEvent, Counts, RisesWithin, Ending, TaskSignalled;
    OpeningLogs(l);
    CleaningCounts(LastEvent(l));
    var o := if l.unstarted then 1 else 0;
    var k := if l.unstarted && l.preStart == Signalled then 1 else 0;
    if Runs(l) {
      TaskCounts(l);
      var task, t := TaskLog(l), if TaskSignalled(l) then 1 else 0;
      var r, e := if Starts(l) then 1 else 0, if Starts(l) && Ending(l.turns) != CancelledTurn then 1 else 0;
      CountsAppend(opening, task, o, 0, 0, k, 0, r, e, t);
      CountsAppend(opening + task, cleaning, o, r, e, k + t, 0, 0, 1, 1);
    } else {
      assert BeforeCleaning(l) == opening;
      CountsAppend(opening, cleaning, o, 0, 0, k, 0, 0, 1, 1);
    }
  }

  /** What a life publishes: Starting just if it was unstarted, Running just if it started, and
      its children are terminated once more by a signal than by the cleanup. The statuses only
      rise, and a supervisor that is told of the start finds the actor running. */
  lemma LogMeaning(l: Life)
    ensures var started := l.unstarted && l.preStart == Ok && l.linked != Some(false) && l.polled && l.postStart == Ok;
            && Counts(Log(l), if l.unstarted then 1 else 0, if started then 1 else 0,
                      if started && !LoopIsCancelled(l.turns) then 2 else 1, if WasSignalled(l) then 2 else 1)
            && (started ==> exists i :: 0 <= i < |Log(l)| - 1 && Log(l)[i] == Becomes(Running) && Log(l)[i + 1] == Emit(ActorStarted))
    ensures Rising(Log(l))
  {
    hide Log, Counts, Rising, Ending, LoopEnds, LoopStops, LoopIsCancelled;
    EndingIsFirst(l.turns);
    LogCounts(l);
    LogRises(l);
  }
}
