/**
 Waiting for an actor to stop: any number of callers of `wait`, with or without a timeout,
 any number of threads that set the status, and the notifier between them.

 A step of a waiter is the creation of its future, the reading of the status, one poll, or
 its wake-up; a step of a setter is its atomic maximum on the status, `notify_waiters`, or
 `notify_one`. The notifier counts the calls of `notify_waiters`, keeps the registered
 waiters in order and holds at most one permit. `Next` is total, so a run is any sequence
 of events.
 */
module StopWait {
  import opened Supervision
  import opened Lifecycle

  type WaiterId = nat
  type SetterId = nat

  datatype Waiter =
    | Created(snapshot: nat)      // has its future, has not read the status
    | Polling(snapshot: nat)      // read a status other than Stopped
    | Registered                  // asleep, in the queue of the notifier
    | Woken(permit: bool)         // taken out of the queue, by notify_one if `permit`
    | Returned
    | TimedOut

  datatype Setter = Announcing | Permitting

  datatype State = State(
    status: Status,
    calls: nat,                   // of notify_waiters
    permit: bool,
    queue: seq<WaiterId>,
    waiters: map<WaiterId, Waiter>,
    setters: map<SetterId, Setter>)   // the threads inside notify_stop_listener

  datatype Event =
    | SetStatus(p: SetterId, status: Status)
    | Notify(p: SetterId)
    | Wait(w: WaiterId)
    | Step(w: WaiterId)
    | Timeout(w: WaiterId)

  function At(s: State, w: WaiterId, pc: Waiter): State { s.(waiters := s.waiters[w := pc]) }

  /** `notify_waiters` wakes everyone in the queue. */
  function NotifyWaiters(s: State): State
  {
    s.(calls := s.calls + 1, queue := [],
       waiters := map w | w in s.waiters :: if w in s.queue then Woken(false) else s.waiters[w])
  }

  /** `notify_one` wakes the first in the queue, or leaves a permit. */
  function NotifyOne(s: State): State
  {
    if s.queue == [] then s.(permit := true)
    else s.(queue := s.queue[1..], waiters := s.waiters[s.queue[0] := Woken(true)])
  }

  function Without(queue: seq<WaiterId>, w: WaiterId): seq<WaiterId>
  {
    if queue == [] then [] else (if queue[0] == w then [] else [queue[0]]) + Without(queue[1..], w)
  }

  function StepWaiter(s: State, w: WaiterId): State
    requires w in s.waiters
  {
    match s.waiters[w]
    case Created(n) => At(s, w, if s.status != Stopped then Polling(n) else Returned)
    case Polling(n) =>
      if s.calls != n then At(s, w, Returned)
      else if s.permit then At(s.(permit := false), w, Returned)
      else At(s.(queue := s.queue + [w]), w, Registered)
    case Woken(_) => At(s, w, Returned)
    case _ => s
  }

  /** The future is dropped; a wake-up by `notify_one` that it has not seen is passed on. */
  function DropWaiter(s: State, w: WaiterId): State
    requires w in s.waiters
  {
    match s.waiters[w]
    case Registered => At(s.(queue := Without(s.queue, w)), w, TimedOut)
    case Woken(permit) => if permit then NotifyOne(At(s, w, TimedOut)) else At(s, w, TimedOut)
    case Returned => s
    case _ => At(s, w, TimedOut)
  }

  function Next(s: State, e: Event): State
  {
    match e
    case SetStatus(p, status) =>
      if p in s.setters then s
      else
        var s' := s.(status := Later(s.status, status));
        if status == Stopped && s.status != Stopped then s'.(setters := s.setters[p := Announcing]) else s'
    case Notify(p) =>
      if p !in s.setters then s
      else if s.setters[p].Announcing? then NotifyWaiters(s).(setters := s.setters[p := Permitting])
      else NotifyOne(s).(setters := s.setters - {p})
    case Wait(w) => if w in s.waiters then s else At(s, w, Created(s.calls))
    case Step(w) => if w in s.waiters then StepWaiter(s, w) else s
    case Timeout(w) => if w in s.waiters then DropWaiter(s, w) else s
  }

  function Run(s: State, events: seq<Event>): State
    decreases |events|
  {
    if events == [] then s else Run(Next(s, events[0]), events[1..])
  }

  const INIT := State(Unstarted, 0, false, [], map[], map[])

  // ------------------------------------------------------------------ the invariant

  /** The one thread that moved the status to Stopped has still to call `notify_waiters`. */
  ghost predicate Owed(s: State) { exists p :: p in s.setters && s.setters[p].Announcing? }

  /** Where a waiter can be before and after the announcement. */
  predicate WaiterOk(s: State, w: WaiterId, pc: Waiter)
  {
    match pc
    case Created(n) => n <= s.calls
    case Polling(n) => n == 0
    case Registered => s.calls == 0 && w in s.queue
    case Woken(permit) => s.calls == 1 && !permit
    case Returned => s.status == Stopped
    case TimedOut => true
  }

  ghost predicate Inv(s: State)
  {
    && s.calls <= 1
    && (s.calls == 1 || Owed(s) <==> s.status == Stopped)
    && (s.calls == 1 ==> !Owed(s))
    && (forall p, q :: p in s.setters && q in s.setters ==> p == q)
    && (forall p :: p in s.setters && s.setters[p].Permitting? ==> s.calls == 1 && !s.permit)
    && (s.permit <==> s.calls == 1 && s.setters == map[])
    && (s.calls == 1 ==> s.queue == [])
    && (forall w :: w in s.queue ==> w in s.waiters && s.waiters[w].Registered?)
    && (forall w :: w in s.waiters ==> WaiterOk(s, w, s.waiters[w]))
  }

  lemma {:induction false} WithoutMembers(queue: seq<WaiterId>, w: WaiterId)
    ensures forall u :: u in Without(queue, w) <==> u in queue && u != w
  {
    if queue != [] {
      WithoutMembers(queue[1..], w);
      assert queue == [queue[0]] + queue[1..];
    }
  }

  lemma SetStatusInv(s: State, p: SetterId, status: Status)
    requires Inv(s)
    ensures Inv(Next(s, SetStatus(p, status)))
  {
    var s' := Next(s, SetStatus(p, status));
    if p !in s.setters && status == Stopped && s.status != Stopped {
      assert s'.setters[p].Announcing?;
    } else if Owed(s) {
      var q :| q in s.setters && s.setters[q].Announcing?;
      assert s'.setters[q].Announcing?;
    }
  }

  lemma NotifyInv(s: State, p: SetterId)
    requires Inv(s)
    ensures Inv(Next(s, Notify(p)))
  {
    if p in s.setters {
      assert forall q :: q in s.setters ==> q == p;
      assert s.setters - {p} == map[];
      assert p in s.setters[p := Permitting];
    }
  }

  lemma WaitInv(s: State, w: WaiterId)
    requires Inv(s)
    ensures Inv(Next(s, Wait(w)))
  {
    assert Owed(Next(s, Wait(w))) <==> Owed(s);
  }

  lemma StepInv(s: State, w: WaiterId)
    requires Inv(s)
    ensures Inv(Next(s, Step(w)))
  {
    var s' := Next(s, Step(w));
    if w in s.waiters { assert WaiterOk(s, w, s.waiters[w]); }
    assert Owed(s') <==> Owed(s);
  }

  lemma TimeoutInv(s: State, w: WaiterId)
    requires Inv(s)
    ensures Inv(Next(s, Timeout(w)))
  {
    var s' := Next(s, Timeout(w));
    if w in s.waiters { assert WaiterOk(s, w, s.waiters[w]); }
    WithoutMembers(s.queue, w);
    assert Owed(s') <==> Owed(s);
  }

  lemma NextInv(s: State, e: Event)
    requires Inv(s)
    ensures Inv(Next(s, e))
  {
    hide Inv, Next;
    match e
    case SetStatus(p, status) => SetStatusInv(s, p, status);
    case Notify(p) => NotifyInv(s, p);
    case Wait(w) => WaitInv(s, w);
    case Step(w) => StepInv(s, w);
    case Timeout(w) => TimeoutInv(s, w);
  }

  lemma {:induction false} RunInv(s: State, events: seq<Event>)
    requires Inv(s)
    ensures Inv(Run(s, events))
    decreases |events|
  {
    hide Inv;
    if events != [] {
      NextInv(s, events[0]);
      RunInv(Next(s, events[0]), events[1..]);
    }
  }

  // ------------------------------------------------------------------ what follows for every run

  /** Nobody returns from `wait` before the actor has stopped. */
  lemma ReturnedMeansStopped(events: seq<Event>, w: WaiterId)
    ensures var s := Run(INIT, events);
            w in s.waiters && s.waiters[w].Returned? ==> s.status == Stopped
  {
    RunInv(INIT, events);
    var s := Run(INIT, events);
    if w in s.waiters { assert WaiterOk(s, w, s.waiters[w]); }
  }

  /** The status is Stopped and the thread that made it so has called `notify_waiters`. */
  ghost predicate Announced(s: State) { s.status == Stopped && !Owed(s) }

  /** A published stop is announced, or one thread has only to take its next step for that. */
  lemma AnnouncementComes(events: seq<Event>)
    ensures var s := Run(INIT, events);
            s.status == Stopped && !Announced(s) ==>
              exists p :: p in s.setters && Announced(Next(s, Notify(p)))
  {
    RunInv(INIT, events);
    var s := Run(INIT, events);
    if s.status == Stopped && !Announced(s) {
      var p :| p in s.setters && s.setters[p].Announcing?;
      NotifyInv(s, p);
      assert Announced(Next(s, Notify(p)));
    }
  }

  function Steps(events: seq<Event>, w: WaiterId): nat
  {
    if events == [] then 0 else (if events[0] == Step(w) then 1 else 0) + Steps(events[1..], w)
  }

  /** The steps a waiter needs once the stop is announced. */
  function Patience(pc: Waiter): nat
  {
    match pc
    case Created(_) => 2
    case Returned => 0
    case TimedOut => 0
    case _ => 1
  }

  /** No step undoes the announcement, or takes a waiter further from its return. */
  lemma AnnouncedStep(s: State, e: Event, w: WaiterId)
    requires Inv(s) && Announced(s) && w in s.waiters
    ensures var s' := Next(s, e);
            && Announced(s') && w in s'.waiters
            && Patience(s'.waiters[w]) <= Patience(s.waiters[w])
            && (e == Step(w) && Patience(s.waiters[w]) > 0 ==> Patience(s'.waiters[w]) < Patience(s.waiters[w]))
            && (s'.waiters[w].TimedOut? ==> s.waiters[w].TimedOut? || e == Timeout(w))
  {
    assert WaiterOk(s, w, s.waiters[w]);
    if (e.Step? || e.Timeout?) && e.w in s.waiters { assert WaiterOk(s, e.w, s.waiters[e.w]); }
    var s' := Next(s, e);
    assert s.setters == s'.setters || e.Notify?;
  }

  lemma {:induction false} AnnouncedRun(s: State, more: seq<Event>, w: WaiterId)
    requires Inv(s) && Announced(s) && w in s.waiters && Steps(more, w) >= Patience(s.waiters[w])
    ensures var s' := Run(s, more);
            && w in s'.waiters && Patience(s'.waiters[w]) == 0
            && (s'.waiters[w].TimedOut? ==> s.waiters[w].TimedOut? || Timeout(w) in more)
    decreases |more|
  {
    hide Inv, Announced, Next;
    if more != [] {
      NextInv(s, more[0]);
      AnnouncedStep(s, more[0], w);
      AnnouncedRun(Next(s, more[0]), more[1..], w);
    }
  }

  /** No waiter sleeps forever: from the moment the stop is announced, in whatever position
      the waiter is and however the others are interleaved, its next two steps take it out
      of `wait`, and it returns unless it has timed out. */
  lemma NobodySleepsForever(events: seq<Event>, more: seq<Event>, w: WaiterId)
    requires var s := Run(INIT, events);
             Announced(s) && w in s.waiters && Steps(more, w) >= 2
    ensures var s, s' := Run(INIT, events), Run(Run(INIT, events), more);
            && w in s'.waiters
            && (s'.waiters[w].Returned? || (s'.waiters[w].TimedOut? && (s.waiters[w].TimedOut? || Timeout(w) in more)))
  {
    hide Inv, Announced, Next;
    InitInv();
    RunInv(INIT, events);
    AnnouncedRun(Run(INIT, events), more, w);
  }

  lemma InitInv()
    ensures Inv(INIT)
  {
  }

  /** The permit left for a waiter created after the stop is never taken: such a waiter
      reads the status and returns without a poll, and an earlier one sees that
      `notify_waiters` has been called. */
  lemma PermitIsNeverTaken(events: seq<Event>)
    ensures var s := Run(INIT, events);
            && (s.permit <==> Announced(s) && s.setters == map[])
            && (forall w :: w in s.waiters && s.waiters[w].Woken? ==> !s.waiters[w].permit)
            && (forall e :: s.permit ==> Next(s, e).permit)
  {
    RunInv(INIT, events);
    var s := Run(INIT, events);
    forall w | w in s.waiters && s.waiters[w].Woken? ensures !s.waiters[w].permit {
      assert WaiterOk(s, w, s.waiters[w]);
    }
    forall e | s.permit ensures Next(s, e).permit {
      if e.Step? && e.w in s.waiters { assert WaiterOk(s, e.w, s.waiters[e.w]); }
    }
  }

  /** How a wait has ended does not change, and only a timeout ends it as timed out. */
  lemma OutcomeIsFinal(events: seq<Event>, e: Event, w: WaiterId)
    requires w in Run(INIT, events).waiters
    ensures var s, s' := Run(INIT, events), Next(Run(INIT, events), e);
            && w in s'.waiters
            && (s.waiters[w].Returned? ==> s'.waiters[w].Returned?)
            && (s.waiters[w].TimedOut? ==> s'.waiters[w].TimedOut?)
            && (s'.waiters[w].TimedOut? ==> s.waiters[w].TimedOut? || e == Timeout(w))
  {
    RunInv(INIT, events);
    var s := Run(INIT, events);
    assert WaiterOk(s, w, s.waiters[w]);
    if (e.Step? || e.Timeout?) && e.w in s.waiters { assert WaiterOk(s, e.w, s.waiters[e.w]); }
  }
}
