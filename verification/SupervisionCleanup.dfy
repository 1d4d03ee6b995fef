/**
 What an actor's cleanup leaves behind, for good: a closed child set, no supervisor, and no
 place in anybody's child set, whatever links, unlinks and cleanups go on meanwhile.
 */
module SupervisionCleanup {
  import opened Options
  import opened Supervision
  import opened SupervisionLocks

  /** The thread is linking `a` and has seen a status of `a` that allows it. */
  predicate SawAlive(at: At, a: Id)
  {
    match at
    case LinkParent(c, _) => c == a
    case LinkInsert(c, _) => c == a
    case LinkDrop(c, _, _) => c == a
    case _ => false
  }

  predicate ShutDown(tree: Tree, a: Id)
  {
    a in tree.status && Rank(tree.status[a]) >= Rank(Stopping)
  }

  predicate HasStopped(tree: Tree, a: Id) { a in tree.status && tree.status[a] == Stopped }

  /** No link of `a` is, or will ever again be, under way, and nobody can join `a`'s child set. */
  ghost predicate Barrier(s: State, a: Id)
  {
    && Closed(s.tree, a)
    && ShutDown(s.tree, a)
    && forall t :: 0 <= t < |s.threads| ==> !SawAlive(s.threads[t].at, a)
  }

  ghost predicate Gone(s: State, a: Id)
  {
    Barrier(s, a) && SupervisorOf(s.tree, a) == None
  }

  predicate NoneOr(tree: Tree, a: Id, p: Id)
  {
    SupervisorOf(tree, a) == None || SupervisorOf(tree, a) == Some(p)
  }

  predicate TakingAt(at: At)
  {
    at.Outside? || (at.Waiting? && at.update.Taking?) || at.TakeClose? || at.TakeDetach? || at.Release?
  }

  ghost predicate StageOk(s: State, at: At, goal: Goal)
  {
    match goal
    case Nothing => true
    case Publishing(a) => at.Outside? && a in s.tree.status
    case Terminating(a, pending) =>
      && ShutDown(s.tree, a)
      && TakingAt(at)
      && (Barrier(s, a) || (at.Outside? && pending == {a}) || at == Waiting(Taking(a)) || at == TakeClose(a))
    case Reading(a) => at.Outside? && Barrier(s, a)
    case Leaving(a) =>
      && Barrier(s, a)
      && (match at
          case Waiting(update) => update.Unlinking? && update.c == a && NoneOr(s.tree, a, update.p)
          case UnlinkCheck(c, p) => c == a && NoneOr(s.tree, a, p)
          case UnlinkClear(c, p) => c == a
          case Release(_) => SupervisorOf(s.tree, a) == None
          case _ => false)
    case Finishing(a) => at.Outside? && Gone(s, a)
    case Cleaned(a) => at.Outside? && Gone(s, a) && HasStopped(s.tree, a)
  }

  ghost predicate Inv(s: State)
  {
    Base(s) && forall t :: 0 <= t < |s.threads| ==> StageOk(s, s.threads[t].at, s.threads[t].goal)
  }

  // ------------------------------------------------------------------ the barrier holds

  /** What a step of the lock holder can do to an actor that is shutting down. */
  lemma ActOn(tree: Tree, at: At, a: Id)
    requires ShutDown(tree, a)
    ensures var r := Act(tree, at);
            && r.tree.status == tree.status
            && (forall b: Id :: Closed(tree, b) ==> Closed(r.tree, b))
            && (!SawAlive(at, a) ==> !SawAlive(r.at, a)
                                     && (SupervisorOf(r.tree, a) == SupervisorOf(tree, a) || SupervisorOf(r.tree, a) == None))
  {
  }

  /** What any step keeps: closed child sets, and statuses going forward only. */
  lemma NextOn(s: State, e: Event, a: Id)
    requires ShutDown(s.tree, a)
    ensures var s' := Next(s, e);
            && ShutDown(s'.tree, a)
            && |s'.threads| == |s.threads|
            && (Closed(s.tree, a) ==> Closed(s'.tree, a))
            && ((forall t :: 0 <= t < |s.threads| ==> !SawAlive(s.threads[t].at, a)) ==>
                  && (forall t :: 0 <= t < |s.threads| ==> !SawAlive(s'.threads[t].at, a))
                  && (SupervisorOf(s'.tree, a) == SupervisorOf(s.tree, a) || SupervisorOf(s'.tree, a) == None))
  {
    match e
    case Step(t) =>
      if t < |s.threads| && !s.threads[t].at.Outside? {
        ActOn(s.tree, s.threads[t].at, a);
        hide Act;
      }
    case _ =>
  }

  lemma BarrierHolds(s: State, e: Event, a: Id)
    requires Barrier(s, a)
    ensures Barrier(Next(s, e), a)
    ensures SupervisorOf(Next(s, e).tree, a) == SupervisorOf(s.tree, a) || SupervisorOf(Next(s, e).tree, a) == None
  {
    hide Next;
    NextOn(s, e, a);
  }

  lemma CellsStay(s: State, e: Event)
    ensures forall a :: a in s.tree.status ==> a in Next(s, e).tree.status
  {
  }

  lemma StaysStopped(s: State, e: Event, a: Id)
    requires HasStopped(s.tree, a)
    ensures HasStopped(Next(s, e).tree, a)
  {
    match e
    case Step(t) =>
      if t < |s.threads| && !s.threads[t].at.Outside? {
        ActOn(s.tree, s.threads[t].at, a);
        hide Act;
      }
    case _ =>
  }

  /** A thread that does not move keeps its stage. */
  lemma OthersKeepStage(s: State, e: Event, at: At, goal: Goal)
    requires StageOk(s, at, goal)
    ensures StageOk(Next(s, e), at, goal)
  {
    hide Next, Barrier;
    CellsStay(s, e);
    match goal
    case Nothing =>
    case Publishing(a) =>
    case Terminating(a, pending) => NextOn(s, e, a); if Barrier(s, a) { BarrierHolds(s, e, a); }
    case Reading(a) => BarrierHolds(s, e, a);
    case Leaving(a) => BarrierHolds(s, e, a);
    case Finishing(a) => BarrierHolds(s, e, a);
    case Cleaned(a) => BarrierHolds(s, e, a); StaysStopped(s, e, a);
  }

  /** Closing `a`'s child set, under the lock and after Stopping was published, is the barrier. */
  lemma TakingIsTheBarrier(s: State, t: ThreadId, a: Id)
    requires Base(s) && t < |s.threads| && s.threads[t].at == TakeClose(a) && ShutDown(s.tree, a)
    ensures Barrier(Next(s, Step(t)), a)
  {
    assert a in s.tree.children;
    forall u | 0 <= u < |s.threads| && u != t ensures !SawAlive(s.threads[u].at, a) {
      assert s.lock == Some(t);
      assert !Holds(s.threads[u].at);
    }
  }

  lemma BarrierIsCell(s: State, a: Id)
    requires Barrier(s, a)
    ensures a in s.tree.status
  {
  }

  lemma CleanupMoves(s: State, t: ThreadId)
    requires t < |s.threads| && s.threads[t].at.Outside? && StageOk(s, s.threads[t].at, s.threads[t].goal)
    ensures var s' := Next(s, Step(t));
            |s'.threads| == |s.threads| && StageOk(s', s'.threads[t].at, s'.threads[t].goal)
  {
    var e := Step(t);
    var s' := Next(s, e);
    hide Barrier;
    match s.threads[t].goal
    case Nothing =>
    case Publishing(a) => PublishKeeps(s.tree, a, Stopping);
    case Terminating(a, pending) => NextOn(s, e, a); if Barrier(s, a) { BarrierHolds(s, e, a); }
    case Reading(a) => BarrierHolds(s, e, a);
    case Leaving(a) => BarrierHolds(s, e, a);
    case Finishing(a) => BarrierHolds(s, e, a); BarrierIsCell(s, a); PublishKeeps(s.tree, a, Stopped);
    case Cleaned(a) => BarrierHolds(s, e, a);
  }

  lemma TerminatingMoves(s: State, t: ThreadId)
    requires Base(s) && t < |s.threads| && !s.threads[t].at.Outside? && s.threads[t].goal.Terminating?
    requires StageOk(s, s.threads[t].at, s.threads[t].goal)
    ensures var s' := Next(s, Step(t));
            |s'.threads| == |s.threads| && StageOk(s', s'.threads[t].at, s'.threads[t].goal)
  {
    var a, at := s.threads[t].goal.a, s.threads[t].at;
    hide Base, Barrier, Closed, SupervisorOf;
    NextOn(s, Step(t), a);
    if Barrier(s, a) {
      BarrierHolds(s, Step(t), a);
    } else if at == TakeClose(a) {
      TakingIsTheBarrier(s, t, a);
    }
  }

  lemma LeavingMoves(s: State, t: ThreadId)
    requires t < |s.threads| && !s.threads[t].at.Outside? && s.threads[t].goal.Leaving?
    requires StageOk(s, s.threads[t].at, s.threads[t].goal)
    ensures var s' := Next(s, Step(t));
            |s'.threads| == |s.threads| && StageOk(s', s'.threads[t].at, s'.threads[t].goal)
  {
    hide Barrier;
    BarrierHolds(s, Step(t), s.threads[t].goal.a);
  }

  lemma MoverKeepsStage(s: State, e: Event, t: ThreadId)
    requires Inv(s) && t < |s.threads| && (e.Step? || e.StepOn? || e.Begin? || e.BeginCleanup?) && e.t == t
    ensures |Next(s, e).threads| == |s.threads| && StageOk(Next(s, e), Next(s, e).threads[t].at, Next(s, e).threads[t].goal)
  {
    var at, goal := s.threads[t].at, s.threads[t].goal;
    assert StageOk(s, at, goal);
    match e
    case Step(_) =>
      hide Base, StageOk;
      if at.Outside? { CleanupMoves(s, t); }
      else if goal.Terminating? { TerminatingMoves(s, t); }
      else if goal.Leaving? { LeavingMoves(s, t); }
      else { NothingMoves(s, t); }
    case StepOn(_, x) =>
      hide Base, Barrier;
      OthersKeepStage(s, e, at, goal);
    case _ =>
      hide Base, Barrier;
      OthersKeepStage(s, e, at, goal);
  }

  lemma NothingMoves(s: State, t: ThreadId)
    requires t < |s.threads| && !s.threads[t].at.Outside? && StageOk(s, s.threads[t].at, s.threads[t].goal)
    requires !s.threads[t].goal.Terminating? && !s.threads[t].goal.Leaving?
    ensures var s' := Next(s, Step(t));
            |s'.threads| == |s.threads| && StageOk(s', s'.threads[t].at, s'.threads[t].goal)
  {
    assert s.threads[t].goal == Nothing;
  }

  lemma NextInv(s: State, e: Event)
    requires Inv(s)
    ensures Inv(Next(s, e))
  {
    NextBase(s, e);
    var s' := Next(s, e);
    hide Base, StageOk;
    forall u | 0 <= u < |s'.threads| ensures StageOk(s', s'.threads[u].at, s'.threads[u].goal) {
      if !e.Advance? && e.t < |s.threads| && u == e.t {
        MoverKeepsStage(s, e, u);
      } else {
        assert StageOk(s, s.threads[u].at, s.threads[u].goal);
        OthersKeepStage(s, e, s.threads[u].at, s.threads[u].goal);
      }
    }
  }

  lemma {:induction false} RunInv(s: State, events: seq<Event>)
    requires Inv(s)
    ensures Inv(Run(s, events))
    decreases |events|
  {
    hide Inv, Next;
    if events != [] {
      NextInv(s, events[0]);
      RunInv(Next(s, events[0]), events[1..]);
    }
  }

  lemma {:induction false} GoneForGood(s: State, events: seq<Event>, a: Id)
    requires Gone(s, a)
    ensures Gone(Run(s, events), a)
    decreases |events|
  {
    hide Barrier, Next;
    if events != [] {
      BarrierHolds(s, events[0], a);
      GoneForGood(Next(s, events[0]), events[1..], a);
    }
  }

  /** Whoever has no supervisor and is not being linked is in no child set, even mid-update. */
  lemma InNoChildSet(s: State, a: Id, p: Id)
    requires Base(s) && Gone(s, a)
    ensures a !in Kids(s.tree, p)
  {
    if s.lock.None? {
      assert SupervisorOf(s.tree, a) == Some(p) <==> a in Kids(s.tree, p);
    } else {
      var at := s.threads[s.lock.value].at;
      var done := Completed(s.tree, at);
      assert SupervisorOf(done, a) == Some(p) <==> a in Kids(done, p);
      assert !SawAlive(at, a);
    }
  }

  lemma {:induction false} StoppedForGood(s: State, events: seq<Event>, a: Id)
    requires HasStopped(s.tree, a)
    ensures HasStopped(Run(s, events).tree, a)
    decreases |events|
  {
    hide Next;
    if events != [] {
      StaysStopped(s, events[0], a);
      StoppedForGood(Next(s, events[0]), events[1..], a);
    }
  }

  /** Once an actor's cleanup is over, in every later state of every run it is Stopped, its child
      set is closed, it has no supervisor and it is in nobody's child set: no link can bring it
      back. */
  lemma CleanedIsGone(s: State, events: seq<Event>, more: seq<Event>, t: ThreadId, a: Id, p: Id)
    requires Init(s) && t < |Run(s, events).threads| && Run(s, events).threads[t].goal == Cleaned(a)
    ensures var later := Run(Run(s, events), more);
            && a in later.tree.status && later.tree.status[a] == Stopped
            && Closed(later.tree, a) && SupervisorOf(later.tree, a) == None && a !in Kids(later.tree, p)
  {
    assert Inv(s);
    RunInv(s, events);
    var s1 := Run(s, events);
    assert StageOk(s1, s1.threads[t].at, s1.threads[t].goal);
    RunInv(s1, more);
    GoneForGood(s1, more, a);
    StoppedForGood(s1, more, a);
    InNoChildSet(Run(s1, more), a, p);
  }

  /** In every reachable state in which nobody holds the lock, supervisor and child sets agree. */
  lemma LinkedWhenUnlocked(s: State, events: seq<Event>, c: Id, p: Id)
    requires Init(s) && Run(s, events).lock.None?
    ensures SupervisorOf(Run(s, events).tree, c) == Some(p) <==> c in Kids(Run(s, events).tree, p)
  {
    assert Inv(s);
    RunInv(s, events);
    assert Valid(Run(s, events).tree);
  }
}
