/**
 What the turns of the message loop serve, and which sends are accepted: signals before stops,
 stops before supervision events, these before messages.
 */
module AdmissionTurns {
  import opened Options
  import opened AdmissionWord
  import opened Admission

  predicate HasTurn(events: seq<Event>) { exists i :: 0 <= i < |events| && events[i].Turn? }

  predicate HasKill(events: seq<Event>) { exists i :: 0 <= i < |events| && events[i].RequestKill? }

  function CountTurns(events: seq<Event>): nat
  {
    if events == [] then 0 else (if events[0].Turn? then 1 else 0) + CountTurns(events[1..])
  }

  // ------------------------------------------------------------------ one event

  /** All that the loop looks at is as before, but for what is pushed. */
  predicate SameForLoop(s: State, s': State)
  {
    && s'.loop == s.loop && s'.handled == s.handled && s'.taken == s.taken && s.pushed <= s'.pushed
    && s'.signalled == s.signalled && s'.stopPort == s.stopPort && s'.supervision == s.supervision
  }

  lemma WordMoves(s: State, t: ThreadId, m: Msg, seen: Word, choice: Choice)
    ensures SameForLoop(s, AdmitCas(s, t, m, seen, choice)) && SameForLoop(s, MarkCas(s, t, seen, choice)) && SameForLoop(s, Release(s, t))
  {
    hide IsClosed, Count, Ready, Increment, Decrement, SetSent;
  }

  lemma PushMoves(s: State, t: ThreadId, item: Muxed, pc: Pc)
    ensures SameForLoop(s, At(Push(s, item), t, pc))
  {
  }

  lemma ThreadsOnly(s: State, t: ThreadId, choice: Choice)
    requires t in s.threads
    ensures SameForLoop(s, StepThread(s, t, choice))
  {
    hide AdmitCas, MarkCas, Release, Push;
    match s.threads[t]
    case SendCas(m, seen) => WordMoves(s, t, m, seen, choice);
    case SendPush(m) => PushMoves(s, t, Message(m), SendRelease);
    case SendRelease => WordMoves(s, t, 0, 0, choice);
    case MarkerCas(seen) => WordMoves(s, t, 0, seen, choice);
    case MarkerPush => PushMoves(s, t, Drain, Idle);
    case _ =>
  }

  /** The loop fails just if a handler does: that of a supervision event or of a message, with
      neither a signal nor a stop waiting. */
  lemma FailsIff(s: State, e: Event)
    requires s.loop == Running
    ensures Next(s, e).loop == Failed <==>
              && e == Turn(Errored) && !s.signalled && s.stopPort.None?
              && (s.supervision > 0 || (s.taken < |s.pushed| && s.pushed[s.taken].Message?))
  {
    hide StepThread;
    if e.Thread? && e.t in s.threads { ThreadsOnly(s, e.t, e.choice); }
  }

  /** A message is handled just if it is next and nothing of a higher priority waits. */
  lemma HandlesIff(s: State, e: Event, m: Msg)
    ensures Next(s, e).handled == s.handled + [m] <==>
              && s.loop == Running && e.Turn? && !s.signalled && s.stopPort.None? && s.supervision == 0
              && s.taken < |s.pushed| && s.pushed[s.taken] == Message(m)
  {
    hide StepThread;
    if e.Thread? && e.t in s.threads { ThreadsOnly(s, e.t, e.choice); }
    assert (s.handled + [m])[|s.handled|] == m;
  }

  // ------------------------------------------------------------------ whole runs

  lemma {:induction false} EndedStays(s: State, events: seq<Event>)
    requires s.loop != Running
    ensures Run(s, events).loop == s.loop && Run(s, events).handled == s.handled && Run(s, events).supervision >= s.supervision
    decreases |events|
  {
    if events != [] {
      hide StepThread;
      StillEnded(s, events[0]);
      EndedStays(Next(s, events[0]), events[1..]);
    }
  }

  lemma StillEnded(s: State, e: Event)
    requires s.loop != Running
    ensures Next(s, e).loop == s.loop && Next(s, e).handled == s.handled && Next(s, e).supervision >= s.supervision
  {
    hide StepThread;
    if e.Thread? && e.t in s.threads { ThreadsOnly(s, e.t, e.choice); }
  }

  /** What else happens between two turns leaves to the loop what was waiting. */
  lemma BetweenTurns(s: State, e: Event)
    requires !e.Turn?
    ensures var s' := Next(s, e);
            && s'.loop == s.loop && s'.handled == s.handled && s'.supervision >= s.supervision && s.pushed <= s'.pushed
            && (s.signalled || e.RequestKill? <==> s'.signalled) && (s.stopPort.Some? ==> s'.stopPort == s.stopPort)
  {
    hide StepThread;
    if e.Thread? && e.t in s.threads { ThreadsOnly(s, e.t, e.choice); }
  }

  lemma TurnsTail(events: seq<Event>)
    requires events != []
    ensures HasTurn(events) <==> events[0].Turn? || HasTurn(events[1..])
    ensures HasKill(events) <==> events[0].RequestKill? || HasKill(events[1..])
  {
    var rest := events[1..];
    if HasTurn(events) { var i :| 0 <= i < |events| && events[i].Turn?; assert i == 0 || rest[i - 1].Turn?; }
    if HasTurn(rest) { var i :| 0 <= i < |rest| && rest[i].Turn?; assert events[i + 1].Turn?; }
    if HasKill(events) { var i :| 0 <= i < |events| && events[i].RequestKill?; assert i == 0 || rest[i - 1].RequestKill?; }
    if HasKill(rest) { var i :| 0 <= i < |rest| && rest[i].RequestKill?; assert events[i + 1].RequestKill?; }
  }

  /** Once a kill is signalled nothing is handled any more, and the next turn ends the loop. */
  lemma {:induction false} KillEndsLoop(s: State, events: seq<Event>)
    requires s.signalled && s.loop == Running
    ensures var s' := Run(s, events);
            && s'.handled == s.handled && s'.supervision >= s.supervision && (s'.loop == Running ==> s'.signalled)
            && s'.loop == if HasTurn(events) then Exited(Some("killed"), true) else Running
    decreases |events|
  {
    if events != [] {
      hide Next, HasTurn;
      TurnsTail(events);
      if events[0].Turn? {
        KilledNow(s, events[0]);
        EndedStays(Next(s, events[0]), events[1..]);
      } else {
        BetweenTurns(s, events[0]);
        KillEndsLoop(Next(s, events[0]), events[1..]);
      }
    } else {
      assert !HasTurn(events);
    }
  }

  lemma KilledNow(s: State, e: Event)
    requires s.signalled && s.loop == Running && e.Turn?
    ensures Next(s, e) == s.(loop := Exited(Some("killed"), true))
  {
  }

  /** Once a stop is requested nothing is handled any more, and the next turn ends the loop: as
      killed if a kill was signalled before it, and otherwise for the reason of the stop. */
  lemma {:induction false} StopEndsLoop(s: State, events: seq<Event>, more: seq<Event>)
    requires s.stopPort.Some? && !s.signalled && s.loop == Running
    requires |more| > 0 && more[0].Turn? && !HasTurn(events)
    ensures var s' := Run(Run(s, events), more);
            && s'.handled == s.handled && s'.supervision >= s.supervision
            && s'.loop == if HasKill(events) then Exited(Some("killed"), true)
                          else Exited(if s.stopPort.value.Stop? then None else Some(s.stopPort.value.reason), false)
    decreases |events|
  {
    if events == [] {
      assert !HasKill(events);
      StoppedNow(s, more[0]);
      hide Next;
      EndedStays(Next(s, more[0]), more[1..]);
    } else {
      hide Next, HasTurn, HasKill;
      TurnsTail(events);
      BetweenTurns(s, events[0]);
      var s1 := Next(s, events[0]);
      if s1.signalled {
        TurnsTail(more);
        KillEndsLoop(s1, events[1..]);
        KillEndsLoop(Run(s1, events[1..]), more);
        assert HasKill(events);
      } else {
        StopEndsLoop(s1, events[1..], more);
      }
    }
  }

  lemma StoppedNow(s: State, e: Event)
    requires !s.signalled && s.stopPort.Some? && s.loop == Running && e.Turn?
    ensures Next(s, e) == s.(loop := Exited(if s.stopPort.value.Stop? then None else Some(s.stopPort.value.reason), false))
  {
  }

  /** As long as a supervision event waits, no message is handled: as many turns as there are
      waiting events handle none. */
  lemma {:induction false} SupervisionFirst(s: State, events: seq<Event>)
    requires CountTurns(events) <= s.supervision
    ensures Run(s, events).handled == s.handled && Run(s, events).taken == s.taken
    ensures Run(s, events).supervision >= s.supervision - CountTurns(events)
    decreases |events|
  {
    if events != [] {
      SupervisedNow(s, events[0]);
      hide Next;
      SupervisionFirst(Next(s, events[0]), events[1..]);
    }
  }

  lemma SupervisedNow(s: State, e: Event)
    requires e.Turn? ==> s.supervision > 0
    ensures var s' := Next(s, e);
            s'.handled == s.handled && s'.taken == s.taken && s'.supervision >= s.supervision - if e.Turn? then 1 else 0
  {
    hide StepThread;
    if e.Thread? && e.t in s.threads { ThreadsOnly(s, e.t, e.choice); }
  }

  // ------------------------------------------------------------------ which sends are accepted

  lemma {:induction false} RunSplits(s: State, e: Event, events: seq<Event>)
    ensures Run(s, [e] + events) == Run(Next(s, e), events)
  {
    assert ([e] + events)[0] == e && ([e] + events)[1..] == events;
  }

  function Alone(t: ThreadId, n: nat): seq<Event> { if n == 0 then [] else [Thread(t, Proceed)] + Alone(t, n - 1) }

  lemma AdmittedAndReleased(s: State, t: ThreadId)
    requires Inv(s) && t in s.threads && s.threads[t].Idle? && !IsClosed(s.word)
    ensures !IsClosed(Increment(s.word)) && Unpack(Decrement(Increment(s.word))) == Unpack(s.word)
  {
    hide Increment, Decrement;
    GuardsAfter(s.threads, t, Idle);
    IncrementRefines(s.word);
    DecrementRefines(Increment(s.word));
  }

  /** An undisturbed send, to an actor below Draining whose admission and port are open, is
      accepted, and the word is as before. */
  lemma SendIsAccepted(s: State, t: ThreadId, m: Msg)
    requires Inv(s) && t in s.threads && s.threads[t].Idle? && s.status < 4 && !IsClosed(s.word) && s.portOpen
    ensures var s' := Run(s, [Thread(t, BeginSend(m))] + Alone(t, 5));
            && s'.accepted == s.accepted + [m] && s'.pushed == s.pushed + [Message(m)]
            && s'.threads == s.threads && Unpack(s'.word) == Unpack(s.word)
  {
    AdmittedAndReleased(s, t);
    hide Next, Run, Unpack, Inv;
    var go := Thread(t, Proceed);
    var s1, s2, s3 := At(s, t, SendStatus(m)), At(s, t, SendLoad(m)), At(s, t, SendCas(m, s.word));
    var s4 := At(s, t, SendPush(m)).(word := Increment(s.word));
    var s5 := At(Push(s4, Message(m)), t, SendRelease);
    var s6 := At(Push(s4, Message(m)), t, Idle).(word := Decrement(Increment(s.word)));
    SendBegins(s, t, m);
    SendEnds(s, t, m);
    RunSplits(s, Thread(t, BeginSend(m)), Alone(t, 5));
    RunSplits(s1, go, Alone(t, 4));
    RunSplits(s2, go, Alone(t, 3));
    RunSplits(s3, go, Alone(t, 2));
    RunSplits(s4, go, Alone(t, 1));
    RunSplits(s5, go, Alone(t, 0));
    NothingRun(s6);
    assert s6.threads == s.threads;
  }

  lemma SendBegins(s: State, t: ThreadId, m: Msg)
    requires t in s.threads && s.threads[t].Idle? && s.status < 4
    ensures Next(s, Thread(t, BeginSend(m))) == At(s, t, SendStatus(m))
    ensures Next(At(s, t, SendStatus(m)), Thread(t, Proceed)) == At(s, t, SendLoad(m))
    ensures Next(At(s, t, SendLoad(m)), Thread(t, Proceed)) == At(s, t, SendCas(m, s.word))
  {
  }

  lemma SendEnds(s: State, t: ThreadId, m: Msg)
    requires t in s.threads && !IsClosed(s.word) && !IsClosed(Increment(s.word)) && s.portOpen
    ensures var s4 := At(s, t, SendPush(m)).(word := Increment(s.word));
            && Next(At(s, t, SendCas(m, s.word)), Thread(t, Proceed)) == s4
            && Next(s4, Thread(t, Proceed)) == At(Push(s4, Message(m)), t, SendRelease)
            && Next(At(Push(s4, Message(m)), t, SendRelease), Thread(t, Proceed))
               == At(Push(s4, Message(m)), t, Idle).(word := Decrement(Increment(s.word)))
  {
    hide Increment, Decrement, IsClosed, Count;
  }

  lemma NothingRun(s: State)
    ensures Run(s, []) == s
  {
  }

  /** A send to an actor at or above Draining is refused at once. */
  lemma SendIsRefused(s: State, t: ThreadId, m: Msg, choice: Choice)
    requires t in s.threads && s.threads[t] == SendStatus(m) && s.status >= 4
    ensures Next(s, Thread(t, choice)) == s.(threads := s.threads[t := Idle])
  {
  }

  // ------------------------------------------------------------------ what a drain publishes

  /** Closed admission is published as a status, or about to be, and the port is open as long as
      the loop runs. */
  ghost predicate Published(s: State)
  {
    && (IsClosed(s.word) ==> s.status >= 4 || exists t :: t in s.threads && s.threads[t].DrainStatus?)
    && (s.loop == Running ==> s.portOpen)
  }

  /** Only closing closes, and only the thread itself moves. */
  lemma OnlyDrainCloses(s: State, t: ThreadId, choice: Choice)
    requires Inv(s) && t in s.threads && !s.threads[t].DrainClose?
    ensures IsClosed(StepThread(s, t, choice).word) == IsClosed(s.word)
  {
    hide Inv;
    match s.threads[t]
    case SendCas(m, seen) => AdmitStaysOpen(s, t, choice);
    case SendRelease => ReleaseKeepsClosed(s, t);
    case MarkerCas(seen) => FlagUpdates(s.word);
    case _ =>
  }

  lemma AdmitStaysOpen(s: State, t: ThreadId, choice: Choice)
    requires Inv(s) && t in s.threads && s.threads[t].SendCas?
    ensures IsClosed(AdmitCas(s, t, s.threads[t].msg, s.threads[t].seen, choice).word) == IsClosed(s.word)
  {
    hide Increment;
    GuardsAfter(s.threads, t, Idle);
    IncrementRefines(s.word);
  }

  lemma ReleaseKeepsClosed(s: State, t: ThreadId)
    requires Inv(s) && t in s.threads && s.threads[t].SendRelease?
    ensures IsClosed(Release(s, t).word) == IsClosed(s.word)
  {
    hide Decrement;
    assert t in Guards(s.threads);
    DecrementRefines(s.word);
  }

  predicate OnlyMoves(s: State, s': State, t: ThreadId)
  {
    s'.status == s.status && s'.portOpen == s.portOpen && t in s'.threads && s'.threads == s.threads[t := s'.threads[t]]
  }

  lemma WordFrames(s: State, t: ThreadId, m: Msg, seen: Word, choice: Choice)
    ensures OnlyMoves(s, AdmitCas(s, t, m, seen, choice), t) && OnlyMoves(s, MarkCas(s, t, seen, choice), t)
    ensures OnlyMoves(s, Release(s, t), t)
  {
    hide IsClosed, Count, Ready, Increment, Decrement, SetSent;
  }

  lemma PushFrames(s: State, t: ThreadId, item: Muxed, pc: Pc)
    ensures OnlyMoves(s, At(Push(s, item), t, pc), t)
  {
  }

  lemma OthersStay(s: State, t: ThreadId, choice: Choice)
    requires t in s.threads
    ensures var s' := StepThread(s, t, choice);
            && s'.status >= s.status && s'.portOpen == s.portOpen
            && t in s'.threads && s'.threads == s.threads[t := s'.threads[t]]
            && (s.threads[t].DrainClose? ==> s'.threads[t].DrainStatus?) && (s.threads[t].DrainStatus? ==> s'.status >= 4)
  {
    hide AdmitCas, MarkCas, Release, Push;
    match s.threads[t]
    case SendCas(m, seen) => WordFrames(s, t, m, seen, choice);
    case SendPush(m) => PushFrames(s, t, Message(m), SendRelease);
    case SendRelease => WordFrames(s, t, 0, 0, choice);
    case MarkerCas(seen) => WordFrames(s, t, 0, seen, choice);
    case MarkerPush => PushFrames(s, t, Drain, Idle);
    case _ =>
  }

  lemma ThreadPublishes(s: State, t: ThreadId, choice: Choice)
    requires Inv(s) && Published(s) && t in s.threads
    ensures Published(StepThread(s, t, choice))
  {
    hide StepThread, Inv, IsClosed;
    var s' := StepThread(s, t, choice);
    OthersStay(s, t, choice);
    ThreadsOnly(s, t, choice);
    if !s.threads[t].DrainClose? {
      OnlyDrainCloses(s, t, choice);
      if IsClosed(s.word) && s.status < 4 && !s.threads[t].DrainStatus? {
        var u :| u in s.threads && s.threads[u].DrainStatus?;
        assert s'.threads[u].DrainStatus?;
      }
    } else {
      assert s'.threads[t].DrainStatus?;
    }
  }

  lemma {:induction false} RunPublishes(s: State, events: seq<Event>)
    requires Inv(s) && Published(s)
    ensures Published(Run(s, events))
    decreases |events|
  {
    if events != [] {
      hide Inv, StepThread;
      var e := events[0];
      NextInv(s, e);
      if e.Thread? && e.t in s.threads { ThreadPublishes(s, e.t, e.choice); } else { OtherPublishes(s, e); }
      hide Next, Published;
      RunPublishes(Next(s, e), events[1..]);
    }
  }

  lemma OtherPublishes(s: State, e: Event)
    requires Published(s) && (e.Thread? ==> e.t !in s.threads)
    ensures Published(Next(s, e))
  {
    hide IsClosed, StepThread;
    var s' := Next(s, e);
    assert s'.threads == s.threads && s'.word == s.word && s'.status >= s.status;
  }

  /** In every run: once admission is closed the status is at least Draining, unless the drain
      that closed it has this as its very next step; and a running loop has its port open. */
  lemma DrainIsPublished(threads: set<ThreadId>, events: seq<Event>)
    requires |threads| <= MESSAGE_ADMISSION_COUNT_MASK
    ensures var s := Run(Init(threads), events);
            && (IsClosed(s.word) ==> s.status >= 4 || exists t :: t in s.threads && s.threads[t].DrainStatus?)
            && (s.loop == Running ==> s.portOpen)
  {
    InitInv(threads);
    RunPublishes(Init(threads), events);
  }
}
