/**
 Message admission, drain and the actor's message loop, as a state machine.

 Any number of threads send messages and request drains. Each load, compare-exchange,
 `fetch_or`, `fetch_sub`, status access and mailbox push of the source is one step of one
 thread. The actor's loop consumes the mailbox, the stop port, the signal port and the
 supervision port in priority order. `Next` is total: an event that is not possible in a
 state leaves the state unchanged, so a run is any sequence of events whatsoever.
 */
module Admission {
  import opened Options
  import opened AdmissionWord

  type ThreadId = nat
  type Msg = nat

  const DRAINING: nat := 4
  const DRAINED_REASON: string := "Drained"
  const KILLED_REASON: string := "killed"

  /** What the message port carries. */
  datatype Muxed = Drain | Message(msg: Msg)

  datatype StopMessage = Stop | Reason(reason: string)

  /** Where a thread is, between two atomic operations. */
  datatype Pc =
    | Idle
    | SendStatus(msg: Msg)               // send_message_unchecked: about to read the status
    | SendLoad(msg: Msg)                 // try_admit_message: about to load the word
    | SendCas(msg: Msg, seen: Word)      // try_admit_message: holding an observed word
    | SendPush(msg: Msg)                 // admitted: about to push the message
    | SendRelease                        // about to drop the admission guard
    | DrainClose                         // drain: about to set the closed bit
    | DrainStatus                        // drain: about to advance the status
    | MarkerLoad                         // send_drain_marker: about to load the word
    | MarkerCas(seen: Word)              // send_drain_marker: holding an observed word
    | MarkerPush                         // send_drain_marker: won, about to push the marker

  /** Nondeterminism of a thread step. */
  datatype Choice =
    | Proceed
    | BeginSend(msg: Msg)
    | BeginDrain
    | SpuriousFailure   // compare_exchange_weak may fail although the values agree
    | BoxingFails       // box_message returned an error

  /** How the handler future of one loop turn ended. */
  datatype Outcome = Completed | Errored | Interrupted

  datatype Loop = Running | Exited(reason: Option<string>, wasKilled: bool) | Failed

  datatype State = State(
    word: Word,
    status: nat,
    threads: map<ThreadId, Pc>,
    pushed: seq<Muxed>,        // everything ever pushed to the message port, in order
    taken: nat,                // how many of those the loop has received
    accepted: seq<Msg>,        // messages whose push succeeded, i.e. whose send returns Ok
    handled: seq<Msg>,         // messages given to the handler
    portOpen: bool,
    signalled: bool,
    stopPort: Option<StopMessage>,
    supervision: nat,          // supervision events waiting
    loop: Loop)

  datatype Event =
    | Thread(t: ThreadId, choice: Choice)
    | AdvanceStatus(to: nat)           // fetch_max by any other caller
    | RequestStop(stop: StopMessage)
    | RequestKill
    | Supervise                        // a supervision event arrives
    | Turn(outcome: Outcome)           // one iteration of the processing loop
    | ClosePorts                       // the port set is dropped after the loop has ended

  function Max(a: nat, b: nat): nat { if a < b then b else a }

  // ------------------------------------------------------------------ steps

  function At(s: State, t: ThreadId, pc: Pc): State
  {
    s.(threads := s.threads[t := pc])
  }

  /** `MessageAdmission::drop` */
  function Release(s: State, t: ThreadId): State
  {
    var next := if IsClosed(s.word) && Count(s.word) == 1 then MarkerLoad else Idle;
    At(s, t, next).(word := Decrement(s.word))
  }

  /** The body of the loop in `try_admit_message`, from an observed word. */
  function AdmitCas(s: State, t: ThreadId, msg: Msg, seen: Word, choice: Choice): State
  {
    if IsClosed(seen) then At(s, t, Idle)
    else if s.word == seen && choice != SpuriousFailure then
      At(s, t, SendPush(msg)).(word := Increment(seen))
    else At(s, t, SendCas(msg, s.word))
  }

  /** The body of the loop in `send_drain_marker`, from an observed word. */
  function MarkCas(s: State, t: ThreadId, seen: Word, choice: Choice): State
  {
    if !Ready(seen) then At(s, t, Idle)
    else if s.word == seen && choice != SpuriousFailure then
      At(s, t, MarkerPush).(word := SetSent(seen))
    else At(s, t, MarkerCas(s.word))
  }

  /** The negation of the early return of `send_drain_marker`. */
  predicate Ready(w: Word)
  {
    IsClosed(w) && Count(w) == 0 && !IsSent(w)
  }

  /** A push to the message port fails, leaving it unchanged, once the port is closed. */
  function Push(s: State, item: Muxed): State
  {
    if !s.portOpen then s
    else s.(pushed := s.pushed + [item],
            accepted := if item.Message? then s.accepted + [item.msg] else s.accepted)
  }

  function StepThread(s: State, t: ThreadId, choice: Choice): State
    requires t in s.threads
  {
    match s.threads[t]
    case Idle =>
      (match choice
       case BeginSend(m) => At(s, t, SendStatus(m))
       case BeginDrain => At(s, t, DrainClose)
       case _ => s)
    case SendStatus(m) => At(s, t, if s.status >= DRAINING then Idle else SendLoad(m))
    case SendLoad(m) => At(s, t, SendCas(m, s.word))
    case SendCas(m, seen) => AdmitCas(s, t, m, seen, choice)
    case SendPush(m) =>
      if choice == BoxingFails then At(s, t, SendRelease)
      else At(Push(s, Message(m)), t, SendRelease)
    case SendRelease => Release(s, t)
    case DrainClose => At(s, t, DrainStatus).(word := SetClosed(s.word))
    case DrainStatus => At(s, t, MarkerLoad).(status := Max(s.status, DRAINING))
    case MarkerLoad => At(s, t, MarkerCas(s.word))
    case MarkerCas(seen) => MarkCas(s, t, seen, choice)
    case MarkerPush => At(Push(s, Drain), t, Idle)
  }

  /** The end of a loop turn whose handler future ran beside the signal port. */
  function AfterHandler(s: State, outcome: Outcome): State
  {
    match outcome
    case Completed => s
    case Errored => s.(loop := Failed)
    case Interrupted => s.(signalled := true, loop := Exited(Some(KILLED_REASON), true))
  }

  /** `process_message` with `listen_in_priority`: signal, stop, supervision, message. */
  function StepLoop(s: State, outcome: Outcome): State
    requires s.loop == Running
  {
    if s.signalled then s.(loop := Exited(Some(KILLED_REASON), true))
    else if s.stopPort.Some? then
      s.(loop := Exited(if s.stopPort.value.Stop? then None else Some(s.stopPort.value.reason), false))
    else if s.supervision > 0 then AfterHandler(s.(supervision := s.supervision - 1), outcome)
    else if s.taken < |s.pushed| then
      match s.pushed[s.taken]
      case Message(m) => AfterHandler(s.(taken := s.taken + 1, handled := s.handled + [m]), outcome)
      case Drain => s.(taken := s.taken + 1, loop := Exited(Some(DRAINED_REASON), false))
    else s
  }

  function Next(s: State, e: Event): State
  {
    match e
    case Thread(t, choice) => if t in s.threads then StepThread(s, t, choice) else s
    case AdvanceStatus(to) => s.(status := Max(s.status, to))
    case RequestStop(stop) => if s.stopPort.None? then s.(stopPort := Some(stop)) else s
    case RequestKill => s.(signalled := true)
    case Supervise => s.(supervision := s.supervision + 1)
    case Turn(outcome) => if s.loop == Running then StepLoop(s, outcome) else s
    case ClosePorts => if s.loop != Running then s.(portOpen := false) else s
  }

  function Run(s: State, events: seq<Event>): State
    decreases |events|
  {
    if events == [] then s else Run(Next(s, events[0]), events[1..])
  }

  /** A live actor that nobody has talked to yet. */
  function Init(threads: set<ThreadId>): State
  {
    State(0, 0, map t | t in threads :: Idle, [], 0, [], [], true, false, None, 0, Running)
  }

  // ------------------------------------------------------------------ invariant

  predicate HoldsGuard(pc: Pc) { pc.SendPush? || pc.SendRelease? }

  function Guards(threads: map<ThreadId, Pc>): set<ThreadId>
  {
    set t | t in threads && HoldsGuard(threads[t])
  }

  /** A thread that will still try to set the marker bit. */
  predicate Committed(pc: Pc)
  {
    pc.DrainStatus? || pc.MarkerLoad? || (pc.MarkerCas? && Ready(pc.seen))
  }

  function Messages(items: seq<Muxed>): (ms: seq<Msg>)
  {
    if items == [] then []
    else
      var init := Messages(items[..|items| - 1]);
      var last := items[|items| - 1];
      if last.Message? then init + [last.msg] else init
  }

  /** The word counts the guards, and no observed word was at the mask. */
  ghost predicate WordInv(word: Word, threads: map<ThreadId, Pc>)
  {
    && Count(word) == |Guards(threads)|
    && |threads| <= MESSAGE_ADMISSION_COUNT_MASK
    && (forall t :: t in threads && threads[t].SendCas? ==> Count(threads[t].seen) < |threads|)
  }

  /** The marker bit records the one marker, which is last. */
  ghost predicate MarkerInv(word: Word, threads: map<ThreadId, Pc>, pushed: seq<Muxed>, portOpen: bool)
  {
    && (IsSent(word) ==> IsClosed(word) && Guards(threads) == {})
    && (forall t :: t in threads && threads[t].MarkerPush? ==> IsSent(word) && Drain !in pushed)
    && (forall t, u :: t in threads && u in threads && threads[t].MarkerPush? && threads[u].MarkerPush? ==> t == u)
    && (Drain in pushed ==> IsSent(word))
    && (forall i :: 0 <= i < |pushed| - 1 ==> pushed[i].Message?)
    && (IsSent(word) && Drain !in pushed && portOpen ==>
        exists t :: t in threads && threads[t].MarkerPush?)
  }

  /** A drain that is due is owed by some thread. */
  ghost predicate DrainOwed(word: Word, threads: map<ThreadId, Pc>)
  {
    Ready(word) ==> exists t :: t in threads && Committed(threads[t])
  }

  /** The loop has handled the messages it has taken, in order. */
  ghost predicate LoopInv(s: State)
  {
    && s.taken <= |s.pushed|
    && s.accepted == Messages(s.pushed)
    && s.handled == Messages(s.pushed[..s.taken])
    && (s.taken > 0 && s.pushed[s.taken - 1].Drain? ==> s.loop == Exited(Some(DRAINED_REASON), false))
    && (s.loop.Exited? && s.loop.reason == Some(DRAINED_REASON) ==>
        (s.taken > 0 && s.pushed[s.taken - 1].Drain?) || s.stopPort == Some(Reason(DRAINED_REASON)))
    && (!s.portOpen ==> s.loop != Running)
  }

  ghost predicate Inv(s: State)
  {
    && WordInv(s.word, s.threads)
    && MarkerInv(s.word, s.threads, s.pushed, s.portOpen)
    && DrainOwed(s.word, s.threads)
    && LoopInv(s)
  }

  // ------------------------------------------------------------------ helper lemmas

  lemma GuardsAfter(threads: map<ThreadId, Pc>, t: ThreadId, pc: Pc)
    requires t in threads
    ensures Guards(threads[t := pc]) == if HoldsGuard(pc) then Guards(threads) + {t} else Guards(threads) - {t}
    ensures |threads[t := pc]| == |threads|
    ensures !HoldsGuard(threads[t]) ==> |Guards(threads)| < |threads|
  {
    SameSize(threads, t, pc);
    SpareGuard(threads, t);
  }

  lemma SameSize(threads: map<ThreadId, Pc>, t: ThreadId, pc: Pc)
    requires t in threads
    ensures |threads[t := pc]| == |threads|
  {
    assert threads[t := pc].Keys == threads.Keys;
    assert |threads[t := pc].Keys| == |threads[t := pc]| && |threads.Keys| == |threads|;
  }

  lemma SpareGuard(threads: map<ThreadId, Pc>, t: ThreadId)
    requires t in threads
    ensures !HoldsGuard(threads[t]) ==> |Guards(threads)| < |threads|
  {
    assert |threads.Keys| == |threads|;
    if !HoldsGuard(threads[t]) {
      Smaller(Guards(threads), threads.Keys, t);
    }
  }

  lemma Smaller(a: set<ThreadId>, b: set<ThreadId>, t: ThreadId)
    requires a <= b && t in b && t !in a
    ensures |a| < |b|
  {
    Subset(a, b - {t});
  }

  lemma {:induction false} Subset(a: set<ThreadId>, b: set<ThreadId>)
    requires a <= b
    ensures |a| <= |b|
  {
    if a != {} {
      var x :| x in a;
      Subset(a - {x}, b - {x});
    }
  }

  lemma MessagesSnoc(items: seq<Muxed>, item: Muxed)
    ensures Messages(items + [item]) == if item.Message? then Messages(items) + [item.msg] else Messages(items)
  {
    assert (items + [item])[..|items|] == items;
  }

  // ------------------------------------------------------------------ preservation

  lemma InitInv(threads: set<ThreadId>)
    requires |threads| <= MESSAGE_ADMISSION_COUNT_MASK
    ensures Inv(Init(threads))
  {
    var s := Init(threads);
    assert s.threads.Keys == threads;
    assert Guards(s.threads) == {};
  }

  /** A step that moves one thread without touching a guard, the word or the port. */
  lemma MoveInv(s: State, t: ThreadId, pc: Pc)
    requires Inv(s) && t in s.threads
    requires !HoldsGuard(s.threads[t]) && !HoldsGuard(pc)
    requires !s.threads[t].MarkerPush? && !pc.MarkerPush?
    requires pc.SendCas? ==> Count(pc.seen) < |s.threads|
    requires Committed(s.threads[t]) ==> Committed(pc) || !Ready(s.word)
    ensures Inv(At(s, t, pc))
  {
    GuardsAfter(s.threads, t, pc);
    var s' := At(s, t, pc);
    assert Guards(s'.threads) == Guards(s.threads);
    if Ready(s.word) {
      var u :| u in s.threads && Committed(s.threads[u]);
      assert Committed(s'.threads[u]);
    }
    if IsSent(s.word) && Drain !in s.pushed && s.portOpen {
      var u :| u in s.threads && s.threads[u].MarkerPush?;
      assert s'.threads[u].MarkerPush?;
    }
  }

  lemma AdmittedInv(s: State, t: ThreadId, msg: Msg)
    requires Inv(s) && t in s.threads && s.threads[t] == SendCas(msg, s.word) && !IsClosed(s.word)
    ensures Inv(At(s, t, SendPush(msg)).(word := Increment(s.word)))
  {
    var s' := At(s, t, SendPush(msg)).(word := Increment(s.word));
    GuardsAfter(s.threads, t, SendPush(msg));
    IncrementRefines(s.word);
    assert Unpack(s'.word) == Unpack(s.word).(count := Count(s.word) + 1);
    assert !IsSent(s'.word) && !Ready(s'.word);
  }

  lemma AdmitInv(s: State, t: ThreadId, choice: Choice)
    requires Inv(s) && t in s.threads && s.threads[t].SendCas?
    ensures Inv(AdmitCas(s, t, s.threads[t].msg, s.threads[t].seen, choice))
  {
    var pc := s.threads[t];
    if IsClosed(pc.seen) {
      MoveInv(s, t, Idle);
    } else if s.word == pc.seen && choice != SpuriousFailure {
      AdmittedInv(s, t, pc.msg);
    } else {
      GuardsAfter(s.threads, t, Idle);
      MoveInv(s, t, SendCas(pc.msg, s.word));
    }
  }

  lemma PushInv(s: State, t: ThreadId, choice: Choice)
    requires Inv(s) && t in s.threads && s.threads[t].SendPush?
    ensures Inv(StepThread(s, t, choice))
  {
    var s' := StepThread(s, t, choice);
    GuardsAfter(s.threads, t, SendRelease);
    assert Guards(s'.threads) == Guards(s.threads);
    assert t in Guards(s.threads);
    assert !IsSent(s.word);
    assert Count(s.word) != 0;
    if s'.pushed != s.pushed {
      MessagesSnoc(s.pushed, Message(s.threads[t].msg));
      assert s'.pushed[..s.taken] == s.pushed[..s.taken];
    }
  }

  lemma ReleaseInv(s: State, t: ThreadId)
    requires Inv(s) && t in s.threads && s.threads[t].SendRelease?
    ensures Inv(Release(s, t))
  {
    var s' := Release(s, t);
    GuardsAfter(s.threads, t, s'.threads[t]);
    assert t in Guards(s.threads);
    assert |Guards(s.threads)| > 0;
    DecrementRefines(s.word);
    assert |Guards(s.threads) - {t}| == |Guards(s.threads)| - 1;
    if Ready(s'.word) {
      assert Committed(s'.threads[t]);
    }
  }

  lemma CloseInv(s: State, t: ThreadId)
    requires Inv(s) && t in s.threads && s.threads[t].DrainClose?
    ensures Inv(At(s, t, DrainStatus).(word := SetClosed(s.word)))
  {
    MoveInv(s, t, DrainStatus);
    var moved := At(s, t, DrainStatus);
    var s' := moved.(word := SetClosed(s.word));
    FlagUpdates(s.word);
    assert Committed(s'.threads[t]);
  }

  lemma MarkedInv(s: State, t: ThreadId)
    requires Inv(s) && t in s.threads && s.threads[t] == MarkerCas(s.word) && Ready(s.word)
    ensures Inv(At(s, t, MarkerPush).(word := SetSent(s.word)))
  {
    var s' := At(s, t, MarkerPush).(word := SetSent(s.word));
    GuardsAfter(s.threads, t, MarkerPush);
    FlagUpdates(s.word);
    assert Unpack(s'.word) == Unpack(s.word).(sent := true);
    assert Guards(s'.threads) == Guards(s.threads);
    assert s'.threads[t].MarkerPush?;
  }

  lemma MarkInv(s: State, t: ThreadId, choice: Choice)
    requires Inv(s) && t in s.threads && s.threads[t].MarkerCas?
    ensures Inv(MarkCas(s, t, s.threads[t].seen, choice))
  {
    var seen := s.threads[t].seen;
    if !Ready(seen) {
      MoveInv(s, t, Idle);
    } else if s.word == seen && choice != SpuriousFailure {
      MarkedInv(s, t);
    } else {
      MoveInv(s, t, MarkerCas(s.word));
    }
  }

  lemma MarkerPushInv(s: State, t: ThreadId)
    requires Inv(s) && t in s.threads && s.threads[t].MarkerPush?
    ensures Inv(At(Push(s, Drain), t, Idle))
  {
    var s' := At(Push(s, Drain), t, Idle);
    GuardsAfter(s.threads, t, Idle);
    assert Guards(s'.threads) == Guards(s.threads);
    if s.portOpen {
      MessagesSnoc(s.pushed, Drain);
      assert s'.pushed[|s.pushed|] == Drain;
      assert s'.pushed[..s.taken] == s.pushed[..s.taken];
      assert forall i :: 0 <= i < |s.pushed| ==> s.pushed[i].Message?;
    }
  }

  lemma LoadInv(s: State, t: ThreadId, msg: Msg)
    requires Inv(s) && t in s.threads && s.threads[t] == SendLoad(msg)
    ensures Inv(At(s, t, SendCas(msg, s.word)))
  {
    GuardsAfter(s.threads, t, Idle);
    MoveInv(s, t, SendCas(msg, s.word));
  }

  lemma StatusInv(s: State, t: ThreadId)
    requires Inv(s) && t in s.threads && s.threads[t].DrainStatus?
    ensures Inv(At(s, t, MarkerLoad).(status := Max(s.status, DRAINING)))
  {
    MoveInv(s, t, MarkerLoad);
  }

  lemma StepThreadInv(s: State, t: ThreadId, choice: Choice)
    requires Inv(s) && t in s.threads
    ensures Inv(StepThread(s, t, choice))
  {
    hide Inv;
    match s.threads[t]
    case Idle =>
      if choice.BeginSend? { MoveInv(s, t, SendStatus(choice.msg)); }
      else if choice.BeginDrain? { MoveInv(s, t, DrainClose); }
    case SendStatus(m) => MoveInv(s, t, if s.status >= DRAINING then Idle else SendLoad(m));
    case SendLoad(m) => LoadInv(s, t, m);
    case SendCas(_, _) => AdmitInv(s, t, choice);
    case SendPush(_) => PushInv(s, t, choice);
    case SendRelease => ReleaseInv(s, t);
    case DrainClose => CloseInv(s, t);
    case DrainStatus => StatusInv(s, t);
    case MarkerLoad => MoveInv(s, t, MarkerCas(s.word));
    case MarkerCas(_) => MarkInv(s, t, choice);
    case MarkerPush => MarkerPushInv(s, t);
  }

  /** Receiving the next item of the message port. */
  lemma TakeInv(s: State)
    requires Inv(s) && s.loop == Running && s.taken < |s.pushed|
    ensures s.pushed[s.taken].Message? ==>
              Inv(s.(taken := s.taken + 1, handled := s.handled + [s.pushed[s.taken].msg]))
    ensures s.pushed[s.taken].Drain? ==>
              Inv(s.(taken := s.taken + 1, loop := Exited(Some(DRAINED_REASON), false)))
  {
    assert s.pushed[..s.taken + 1] == s.pushed[..s.taken] + [s.pushed[s.taken]];
    MessagesSnoc(s.pushed[..s.taken], s.pushed[s.taken]);
  }

  lemma AfterHandlerInv(s: State, outcome: Outcome)
    requires Inv(s) && s.loop == Running
    ensures Inv(AfterHandler(s, outcome))
  {
    assert |KILLED_REASON| != |DRAINED_REASON|;
  }

  lemma StepLoopInv(s: State, outcome: Outcome)
    requires Inv(s) && s.loop == Running
    ensures Inv(StepLoop(s, outcome))
  {
    assert |KILLED_REASON| != |DRAINED_REASON|;
    if s.signalled || s.stopPort.Some? {
    } else if s.supervision > 0 {
      AfterHandlerInv(s.(supervision := s.supervision - 1), outcome);
    } else if s.taken < |s.pushed| {
      TakeInv(s);
      if s.pushed[s.taken].Message? {
        AfterHandlerInv(s.(taken := s.taken + 1, handled := s.handled + [s.pushed[s.taken].msg]), outcome);
      }
    }
  }

  lemma NextInv(s: State, e: Event)
    requires Inv(s)
    ensures Inv(Next(s, e))
  {
    match e
    case Thread(t, choice) => if t in s.threads { StepThreadInv(s, t, choice); }
    case Turn(outcome) => if s.loop == Running { StepLoopInv(s, outcome); }
    case _ =>
  }

  lemma {:induction false} RunInv(s: State, events: seq<Event>)
    requires Inv(s)
    ensures Inv(Run(s, events))
    decreases |events|
  {
    hide Inv;
    if events != [] {
      NextInv(s, events[0]);
      RunInv(Next(s, events[0]), events[1..]);
    }
  }

  // ------------------------------------------------------------------ results over every run

  /** The flags and the count of the packed word never disturb one another: whatever the
      threads do, the count is the number of live admission guards. Neither debug assertion of the source can fail:
      an observed open word is below the mask, and a guard being dropped is counted. */
  lemma CountIsLiveGuards(threads: set<ThreadId>, events: seq<Event>)
    requires |threads| <= MESSAGE_ADMISSION_COUNT_MASK
    ensures var s := Run(Init(threads), events);
            && Count(s.word) == |Guards(s.threads)|
            && (forall t :: t in s.threads && s.threads[t].SendCas? ==>
                  Count(s.threads[t].seen) < MESSAGE_ADMISSION_COUNT_MASK)
            && (forall t :: t in s.threads && s.threads[t].SendRelease? ==> Count(s.word) != 0)
  {
    InitInv(threads);
    RunInv(Init(threads), events);
    var s := Run(Init(threads), events);
    forall t | t in s.threads && s.threads[t].SendRelease?
      ensures Count(s.word) != 0
    {
      assert t in Guards(s.threads);
    }
  }

  /** What one atomic operation may do to the word, said of its meaning: admit a sender
      while open, release a counted sender, close, or set the marker bit of a closed word
      that counts nobody. */
  predicate TripleStep(t: Triple, t': Triple)
  {
    || t' == t
    || (!t.closed && t' == t.(count := t.count + 1))
    || (t.count > 0 && t' == t.(count := t.count - 1))
    || t' == t.(closed := true)
    || (t.closed && t.count == 0 && !t.sent && t' == t.(sent := true))
  }

  lemma ReleaseRefines(s: State, t: ThreadId)
    requires Inv(s) && t in s.threads && s.threads[t].SendRelease?
    ensures TripleStep(Unpack(s.word), Unpack(Release(s, t).word))
  {
    assert t in Guards(s.threads);
    DecrementRefines(s.word);
  }

  lemma AdmitRefines(s: State, t: ThreadId, choice: Choice)
    requires Inv(s) && t in s.threads && s.threads[t].SendCas?
    ensures TripleStep(Unpack(s.word), Unpack(AdmitCas(s, t, s.threads[t].msg, s.threads[t].seen, choice).word))
  {
    var seen := s.threads[t].seen;
    GuardsAfter(s.threads, t, Idle);
    if !IsClosed(seen) && s.word == seen && choice != SpuriousFailure { IncrementRefines(seen); }
  }

  lemma MarkRefines(s: State, t: ThreadId, seen: Word, choice: Choice)
    ensures TripleStep(Unpack(s.word), Unpack(MarkCas(s, t, seen, choice).word))
  {
    FlagUpdates(seen);
  }

  lemma ThreadRefinesTriple(s: State, t: ThreadId, choice: Choice)
    requires Inv(s) && t in s.threads
    ensures TripleStep(Unpack(s.word), Unpack(StepThread(s, t, choice).word))
  {
    hide Inv, Unpack, Release, AdmitCas, MarkCas;
    match s.threads[t]
    case SendRelease => ReleaseRefines(s, t);
    case SendCas(m, seen) => AdmitRefines(s, t, choice);
    case DrainClose => FlagUpdates(s.word);
    case MarkerCas(seen) => MarkRefines(s, t, seen, choice);
    case _ => assert StepThread(s, t, choice).word == s.word;
  }

  /** The packed word refines the triple on every step of every run. */
  lemma WordRefinesTriple(threads: set<ThreadId>, events: seq<Event>, e: Event)
    requires |threads| <= MESSAGE_ADMISSION_COUNT_MASK
    ensures var s := Run(Init(threads), events); TripleStep(Unpack(s.word), Unpack(Next(s, e).word))
  {
    InitInv(threads);
    RunInv(Init(threads), events);
    var s := Run(Init(threads), events);
    if e.Thread? && e.t in s.threads {
      ThreadRefinesTriple(s, e.t, e.choice);
    } else {
      assert Next(s, e).word == s.word;
    }
  }

  /** At most one drain marker ever reaches the mailbox, and it is the last thing that
      does: every accepted message precedes it. */
  lemma MarkerIsUniqueAndLast(threads: set<ThreadId>, events: seq<Event>)
    requires |threads| <= MESSAGE_ADMISSION_COUNT_MASK
    ensures var s := Run(Init(threads), events);
            && s.accepted == Messages(s.pushed)
            && forall i :: 0 <= i < |s.pushed| && s.pushed[i].Drain? ==> i == |s.pushed| - 1
  {
    InitInv(threads);
    RunInv(Init(threads), events);
  }

  /** No lost drain: whenever admission is closed, nobody is in flight and the marker bit
      is clear, some thread is committed to setting it; its observed word, if it holds
      one, is not stale in a way that would make it give up. */
  lemma NoLostDrain(threads: set<ThreadId>, events: seq<Event>)
    requires |threads| <= MESSAGE_ADMISSION_COUNT_MASK
    ensures var s := Run(Init(threads), events);
            IsClosed(s.word) && Count(s.word) == 0 && !IsSent(s.word) ==>
              exists t :: t in s.threads && Committed(s.threads[t])
  {
    InitInv(threads);
    RunInv(Init(threads), events);
  }

  /** Hence once every thread has finished after a drain request, the marker is in the
      mailbox, unless the actor had already dropped its ports. */
  lemma QuiescentDrainHasMarker(threads: set<ThreadId>, events: seq<Event>)
    requires |threads| <= MESSAGE_ADMISSION_COUNT_MASK
    ensures var s := Run(Init(threads), events);
            IsClosed(s.word) && (forall t :: t in s.threads ==> s.threads[t].Idle?) ==>
              IsSent(s.word) && (s.portOpen ==> s.pushed != [] && s.pushed[|s.pushed| - 1] == Drain)
  {
    InitInv(threads);
    RunInv(Init(threads), events);
    var s := Run(Init(threads), events);
    if forall t :: t in s.threads ==> s.threads[t].Idle? {
      assert Guards(s.threads) == {};
    }
  }

  /** Once the marker bit is set, no message is accepted any more. */
  lemma NextFrozen(s: State, e: Event)
    requires Inv(s) && IsSent(s.word)
    ensures IsSent(Next(s, e).word) && Next(s, e).accepted == s.accepted
  {
    FlagUpdates(s.word);
    if e.Thread? && e.t in s.threads {
      assert e.t !in Guards(s.threads);
      if s.threads[e.t].SendCas? && s.threads[e.t].seen == s.word { assert IsClosed(s.word); }
    }
  }

  lemma {:induction false} RunFrozen(s: State, events: seq<Event>)
    requires Inv(s) && IsSent(s.word)
    ensures IsSent(Run(s, events).word) && Run(s, events).accepted == s.accepted
    decreases |events|
  {
    if events != [] {
      NextInv(s, events[0]);
      NextFrozen(s, events[0]);
      RunFrozen(Next(s, events[0]), events[1..]);
    }
  }

  /** The loop left through the drain marker. */
  predicate LeftByMarker(s: State)
  {
    s.taken > 0 && s.taken <= |s.pushed| && s.pushed[s.taken - 1].Drain?
  }

  /** If the loop leaves through the marker, the handler was given exactly the accepted
      messages, once each and in mailbox order, whatever supervision events interleaved;
      and no continuation of the run accepts another one. */
  lemma DrainedLoopHandledEverything(threads: set<ThreadId>, events: seq<Event>, more: seq<Event>)
    requires |threads| <= MESSAGE_ADMISSION_COUNT_MASK
    requires LeftByMarker(Run(Init(threads), events))
    ensures var s := Run(Init(threads), events);
            s.handled == s.accepted && Run(s, more).accepted == s.accepted
  {
    InitInv(threads);
    var s := Run(Init(threads), events);
    RunInv(Init(threads), events);
    assert s.taken == |s.pushed|;
    assert s.pushed[..s.taken] == s.pushed;
    assert s.pushed[s.taken - 1] in s.pushed;
    RunFrozen(s, more);
  }

  // ------------------------------------------------------------------ the exit reason

  /** Every stop request in the run carries an allowed message. */
  ghost predicate StopsAmong(events: seq<Event>, allowed: iset<StopMessage>)
  {
    forall i :: 0 <= i < |events| && events[i].RequestStop? ==> events[i].stop in allowed
  }

  /** Whatever requests race for it, the stop port holds one of their messages. */
  lemma {:induction false} StopPortContents(s: State, events: seq<Event>, allowed: iset<StopMessage>)
    requires StopsAmong(events, allowed)
    requires s.stopPort.Some? ==> s.stopPort.value in allowed
    ensures var s' := Run(s, events); s'.stopPort.Some? ==> s'.stopPort.value in allowed
    decreases |events|
  {
    if events != [] {
      assert StopsAmong(events[1..], allowed) by {
        forall i | 0 <= i < |events[1..]| && events[1..][i].RequestStop?
          ensures events[1..][i].stop in allowed
        {
          assert events[1..][i] == events[i + 1];
        }
      }
      StopPortContents(Next(s, events[0]), events[1..], allowed);
    }
  }

  /** The exit reason "Drained" means what it says: everything accepted was handled, and
      nothing is accepted any more. */
  ghost predicate DrainedMeansHandled(s: State)
  {
    s.loop.Exited? && s.loop.reason == Some(DRAINED_REASON) ==>
      s.handled == s.accepted && forall more :: Run(s, more).accepted == s.accepted
  }

  lemma DrainedUnlessImitated(threads: set<ThreadId>, events: seq<Event>, allowed: iset<StopMessage>)
    requires |threads| <= MESSAGE_ADMISSION_COUNT_MASK
    requires StopsAmong(events, allowed) && Reason(DRAINED_REASON) !in allowed
    ensures DrainedMeansHandled(Run(Init(threads), events))
  {
    var s := Run(Init(threads), events);
    InitInv(threads);
    RunInv(Init(threads), events);
    StopPortContents(Init(threads), events, allowed);
    if LeftByMarker(s) {
      DrainedLoopHandledEverything(threads, events, []);
      forall more ensures Run(s, more).accepted == s.accepted {
        DrainedLoopHandledEverything(threads, events, more);
      }
    }
  }

  /** The exit reason alone identifies a completed drain exactly when callers do not use
      the word themselves: the runs whose stop requests carry only allowed messages, in any
      mixture, all agree with the reason if and only if a stop with reason "Drained" is not
      allowed. */
  lemma DrainedReasonIffNotImitated(allowed: iset<StopMessage>)
    ensures (forall threads: set<ThreadId>, events: seq<Event>
               | |threads| <= MESSAGE_ADMISSION_COUNT_MASK && StopsAmong(events, allowed)
               :: DrainedMeansHandled(Run(Init(threads), events)))
            <==> Reason(DRAINED_REASON) !in allowed
  {
    if Reason(DRAINED_REASON) in allowed {
      var events := ImitatedDrain();
      ImitatedDrainLosesMessage();
      assert |{0}| <= MESSAGE_ADMISSION_COUNT_MASK;
      assert StopsAmong(events, allowed);
      assert !DrainedMeansHandled(Run(Init({0}), events));
    } else {
      forall threads: set<ThreadId>, events: seq<Event>
        | |threads| <= MESSAGE_ADMISSION_COUNT_MASK && StopsAmong(events, allowed)
        ensures DrainedMeansHandled(Run(Init(threads), events))
      {
        DrainedUnlessImitated(threads, events, allowed);
      }
    }
  }

  /** One accepted message, then `stop(Some("Drained"))`. */
  function ImitatedDrain(): seq<Event>
  {
    [Thread(0, BeginSend(7)), Thread(0, Proceed), Thread(0, Proceed), Thread(0, Proceed), Thread(0, Proceed),
     RequestStop(Reason(DRAINED_REASON)), Turn(Completed)]
  }

  lemma ImitatedDrainLosesMessage()
    ensures var s := Run(Init({0}), ImitatedDrain());
            && s.loop == Exited(Some(DRAINED_REASON), false)
            && s.accepted == [7] && s.handled == []
  {
    var s0 := Init({0});
    var es := ImitatedDrain();
    var s1 := Next(s0, es[0]);
    var s2 := Next(s1, es[1]);
    var s3 := Next(s2, es[2]);
    var s4 := Next(s3, es[3]);
    var s5 := Next(s4, es[4]);
    var s6 := Next(s5, es[5]);
    assert s4.threads[0] == SendPush(7);
    RunFrom(s0, es, 0);
    RunFrom(s1, es, 1);
    RunFrom(s2, es, 2);
    RunFrom(s3, es, 3);
    RunFrom(s4, es, 4);
    RunFrom(s5, es, 5);
    RunFrom(s6, es, 6);
    assert es[0..] == es && es[7..] == [];
  }

  lemma RunFrom(s: State, es: seq<Event>, i: nat)
    requires i < |es|
    ensures Run(s, es[i..]) == Run(Next(s, es[i]), es[i + 1..])
  {
    assert es[i..][1..] == es[i + 1..];
  }
}
