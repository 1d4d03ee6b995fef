/**
 What a structural update comes to, from the moment its thread takes the lock to the moment it
 releases it: the operation of the same name on the tree as it was, whatever else goes on. And
 what a cleanup has done to the actors below: each child it took has had its children taken.
 */
module SupervisionEffects {
  import opened Options
  import opened Supervision
  import opened SupervisionLocks
  import opened SupervisionCleanup

  /** The trees differ in statuses at most. */
  predicate Same(t: Tree, t': Tree) { t'.children == t.children && t'.supervisor == t.supervisor }

  predicate Up(t: Tree, a: Id) { a in t.status && t.status[a] in {Unstarted, Starting, Running, Upgrading} }

  /** Statuses only rise. */
  ghost predicate Rises(t: Tree, t': Tree)
  {
    t'.status.Keys == t.status.Keys && forall a :: a in t.status ==> Rank(t.status[a]) <= Rank(t'.status[a])
  }

  /** The child is under the supervisor, neither having been on its way out and the child set
      being open; or nothing has changed, the one or the other being on its way out now or the
      child set closed. */
  predicate LinkEffect(before: Tree, now: Tree, c: Id, p: Id)
  {
    || (Same(Attach(before, c, p), now) && Up(before, c) && Up(before, p) && !Closed(before, p))
    || (Same(before, now) && (!Up(now, c) || !Up(now, p) || Closed(before, p)))
  }

  /** What an update has done to the tree, and whom it has taken. */
  predicate Effect(before: Tree, now: Tree, update: Update, taken: set<Id>)
  {
    match update
    case Linking(c, p) => LinkEffect(before, now, c, p) && taken == {}
    case Unlinking(c, p) => Same(Unlink(before, c, p), now) && taken == {}
    case Taking(p) => Same(if p in before.children then TakeChildren(before, p) else before, now) && taken == Kids(before, p)
  }

  /** How far the holder of the lock has come with its update. */
  predicate OnUpdate(before: Tree, now: Tree, at: At, update: Update)
  {
    match at
    case LinkChild(c, p) => update == Linking(c, p) && Same(before, now)
    case LinkParent(c, p) => update == Linking(c, p) && Same(before, now) && Up(before, c)
    case LinkInsert(c, p) => update == Linking(c, p) && Same(before, now) && Up(before, c) && Up(before, p)
    case LinkDrop(c, p, _) =>
      update == Linking(c, p) && Same(Attach(before, c, p), Completed(now, at)) && Up(before, c) && Up(before, p) && !Closed(before, p)
    case UnlinkCheck(c, p) => update == Unlinking(c, p) && Same(before, now)
    case UnlinkClear(c, p) => update == Unlinking(c, p) && Same(Unlink(before, c, p), Completed(now, at))
    case TakeClose(p) => update == Taking(p) && Same(before, now)
    case TakeDetach(p, taken, _) =>
      update == Taking(p) && p in before.children && taken == Kids(before, p) && Same(TakeChildren(before, p), Completed(now, at))
    case Release(taken) => Effect(before, now, update, taken)
    case _ => false
  }

  lemma MayLinkIsUp(t: Tree, a: Id)
    ensures MayLink(t, a) <==> Up(t, a)
  {
  }

  lemma WasUp(before: Tree, now: Tree, a: Id)
    requires Rises(before, now)
    ensures Up(now, a) ==> Up(before, a)
  {
  }

  lemma ActOnUpdate(before: Tree, now: Tree, at: At, update: Update)
    requires OnUpdate(before, now, at, update) && Holds(at) && !at.Release? && AtOk(now, at) && Rises(before, now)
    ensures OnUpdate(before, Act(now, at).tree, Act(now, at).at, update)
  {
    match at
    case LinkChild(c, p) => MayLinkIsUp(now, c); WasUp(before, now, c);
    case LinkParent(c, p) => MayLinkIsUp(now, p); WasUp(before, now, p);
    case LinkInsert(c, p) =>
      if !Closed(now, p) {
        var r := Act(now, at);
        assert Completed(r.tree, r.at) == Attach(now, c, p);
        assert Same(Attach(before, c, p), Attach(now, c, p));
      }
    case UnlinkCheck(c, p) =>
      assert Same(Unlink(before, c, p), Unlink(now, c, p));
    case TakeClose(p) =>
      assert Same(TakeChildren(before, p), TakeChildren(now, p));
    case TakeDetach(p, taken, rest) =>
      if rest == {} { assert Detached(now.supervisor, p, rest) == now.supervisor; }
    case _ =>
  }

  lemma SameStatus(now: Tree, at: At)
    ensures Act(now, at).tree.status == now.status
  {
  }

  /** Statuses that rise meanwhile, and nothing else, leave the holder where it was. */
  lemma StillOnUpdate(before: Tree, now: Tree, now': Tree, at: At, update: Update)
    requires OnUpdate(before, now, at, update) && Same(now, now') && Rises(now, now')
    ensures OnUpdate(before, now', at, update)
  {
    assert Same(Completed(now, at), Completed(now', at));
    assert forall a :: !Up(now, a) ==> !Up(now', a);
  }

  /** Nobody but the holder of the lock changes the structure. */
  lemma OthersOnUpdate(s: State, e: Event, t: ThreadId)
    requires Base(s) && s.lock == Some(t) && !((e.Step? || e.StepOn?) && e.t == t)
    ensures var s' := Next(s, e);
            Same(s.tree, s'.tree) && Rises(s.tree, s'.tree) && t < |s'.threads| && s'.threads[t] == s.threads[t] && s'.lock == s.lock
  {
    hide TreeOk;
    assert forall u :: 0 <= u < |s.threads| && u != t ==> !Holds(s.threads[u].at);
    assert Holds(s.threads[t].at);
    match e
    case Step(u) =>
      if u < |s.threads| && s.threads[u].at.Outside? {
        match s.threads[u].goal
        case Publishing(a) => PublishKeeps(s.tree, a, Stopping);
        case Finishing(a) => PublishKeeps(s.tree, a, Stopped);
        case _ =>
      }
    case Advance(a, status) => PublishKeeps(s.tree, a, status);
    case _ =>
  }

  /** The thread is at work on the update it took the lock for. */
  ghost predicate AtWork(s: State, t: ThreadId, before: Tree, update: Update)
  {
    Base(s) && s.lock == Some(t) && OnUpdate(before, s.tree, s.threads[t].at, update) && Rises(before, s.tree)
  }

  lemma HolderSteps(s: State, e: Event, t: ThreadId, before: Tree, update: Update)
    requires AtWork(s, t, before, update) && (e.Step? || e.StepOn?) && e.t == t
    ensures var s' := Next(s, e);
            s'.lock == Some(t) ==> OnUpdate(before, s'.tree, s'.threads[t].at, update) && Rises(before, s'.tree)
  {
    var at := s.threads[t].at;
    assert Holds(at);
    if e.Step? {
      if !at.Release? { ActOnUpdate(before, s.tree, at, update); SameStatus(s.tree, at); }
      hide Act, OnUpdate, TreeOk;
    } else if at.TakeDetach? && e.x in at.rest {
      DetachSame(s.tree, at.p, at.taken, at.rest, e.x);
    }
  }

  lemma NextAtWork(s: State, e: Event, t: ThreadId, before: Tree, update: Update)
    requires AtWork(s, t, before, update) && Next(s, e).lock == Some(t)
    ensures AtWork(Next(s, e), t, before, update)
  {
    NextBase(s, e);
    if (e.Step? || e.StepOn?) && e.t == t {
      HolderSteps(s, e, t, before, update);
    } else {
      OthersOnUpdate(s, e, t);
      hide Next, OnUpdate, TreeOk;
      StillOnUpdate(before, s.tree, Next(s, e).tree, s.threads[t].at, update);
    }
  }

  /** The thread holds the lock all along. */
  predicate Keeps(s: State, events: seq<Event>, t: ThreadId)
    decreases |events|
  {
    s.lock == Some(t) && (events == [] || Keeps(Next(s, events[0]), events[1..], t))
  }

  lemma {:induction false} RunAtWork(s: State, events: seq<Event>, t: ThreadId, before: Tree, update: Update)
    requires AtWork(s, t, before, update) && Keeps(s, events, t)
    ensures AtWork(Run(s, events), t, before, update)
    decreases |events|
  {
    hide AtWork, Next;
    if events != [] {
      NextAtWork(s, events[0], t, before, update);
      RunAtWork(Next(s, events[0]), events[1..], t, before, update);
    }
  }

  lemma TakesLock(s: State, t: ThreadId, update: Update)
    requires Base(s) && t < |s.threads| && s.threads[t].at == Waiting(update) && s.lock.None?
    ensures AtWork(Next(s, Step(t)), t, s.tree, update)
  {
    NextBase(s, Step(t));
  }

  /** In every run, however other threads and status changes are interleaved: when a thread
      comes to release the lock it took for an update, the structure is that of the operation
      applied to the tree as it was when the lock was taken. A link is made only if neither was
      on its way out then and the child set was open, and refused only if one of the two is on
      its way out by now or the child set was closed. */
  lemma UpdateTakesEffect(s: State, events: seq<Event>, t: ThreadId, update: Update, during: seq<Event>)
    requires Init(s)
    requires var s0 := Run(s, events);
             && t < |s0.threads| && s0.threads[t].at == Waiting(update) && s0.lock.None?
             && Keeps(Next(s0, Step(t)), during, t)
    ensures var s0 := Run(s, events);
            var s1 := Run(Next(s0, Step(t)), during);
            && t < |s1.threads|
            && (s1.threads[t].at.Release? ==> Effect(s0.tree, s1.tree, update, s1.threads[t].at.taken))
  {
    assert SupervisionCleanup.Inv(s);
    RunInv(s, events);
    var s0 := Run(s, events);
    hide Effect, Run, Keeps, Next;
    TakesLock(s0, t, update);
    RunAtWork(Next(s0, Step(t)), during, t, s0.tree, update);
  }

  // ------------------------------------------------------------------ every update ends

  /** How much the holder of the lock has still to do, not counting children to detach. */
  function Stages(at: At): nat
  {
    match at
    case LinkChild(_, _) => 5
    case LinkParent(_, _) => 4
    case LinkInsert(_, _) => 3
    case LinkDrop(_, _, _) => 2
    case UnlinkCheck(_, _) => 3
    case UnlinkClear(_, _) => 2
    case TakeClose(_) => 3
    case TakeDetach(_, _, _) => 2
    case Release(_) => 1
    case _ => 0
  }

  function ToDetach(at: At): nat { if at.TakeDetach? then |at.rest| else 0 }

  predicate OnlyOf(steps: seq<Event>, t: ThreadId)
  {
    forall i :: 0 <= i < |steps| ==> (steps[i].Step? || steps[i].StepOn?) && steps[i].t == t
  }

  lemma HolderAdvances(s: State, t: ThreadId) returns (e: Event)
    requires Base(s) && s.lock == Some(t)
    ensures (e.Step? || e.StepOn?) && e.t == t
    ensures var at, s' := s.threads[t].at, Next(s, e);
            || (s'.lock.None? && t < |s'.threads| && s'.threads[t].at.Outside?)
            || (&& s'.lock == Some(t)
                && (|| Stages(s'.threads[t].at) < Stages(at)
                    || (Stages(s'.threads[t].at) == Stages(at) && ToDetach(s'.threads[t].at) < ToDetach(at))))
  {
    hide TreeOk;
    var at := s.threads[t].at;
    assert Holds(at);
    e := Step(t);
    if at.TakeDetach? && at.rest != {} {
      var x :| x in at.rest;
      e := StepOn(t, x);
      assert |at.rest - {x}| < |at.rest|;
    } else if !at.Release? {
      ActAdvances(s.tree, at);
      hide Act;
    }
  }

  lemma ActAdvances(tree: Tree, at: At)
    requires Holds(at) && !at.Release? && (at.TakeDetach? ==> at.rest == {})
    ensures Stages(Act(tree, at).at) < Stages(at) && Holds(Act(tree, at).at)
  {
  }

  /** In every reachable state the holder of the lock can finish and release it by itself. */
  lemma {:induction false} HolderFinishes(s: State, t: ThreadId) returns (steps: seq<Event>)
    requires Base(s) && s.lock == Some(t)
    ensures OnlyOf(steps, t) && Run(s, steps).lock.None?
    ensures t < |Run(s, steps).threads| && Run(s, steps).threads[t].at.Outside?
    decreases Stages(s.threads[t].at), ToDetach(s.threads[t].at)
  {
    var e := HolderAdvances(s, t);
    NextBase(s, e);
    hide Next, TreeOk;
    var s1 := Next(s, e);
    if s1.lock.None? {
      steps := [e];
      assert Run(s, [e]) == Run(s1, []) by { assert [e][1..] == []; }
    } else {
      var rest := HolderFinishes(s1, t);
      steps := [e] + rest;
      assert steps[0] == e && steps[1..] == rest;
    }
  }

  // ------------------------------------------------------------------ whom a cleanup terminates

  lemma ClosedStays(s: State, e: Event, x: Id)
    requires x in s.tree.children
    ensures x in Next(s, e).tree.children && (Closed(s.tree, x) ==> Closed(Next(s, e).tree, x))
  {
    match e
    case Step(t) =>
      if t < |s.threads| && !s.threads[t].at.Outside? {
        ActKeepsClosed(s.tree, s.threads[t].at, x);
        hide Act;
      }
    case _ =>
  }

  lemma ActKeepsClosed(tree: Tree, at: At, x: Id)
    requires x in tree.children
    ensures x in Act(tree, at).tree.children && (Closed(tree, x) ==> Closed(Act(tree, at).tree, x))
  {
  }

  /** The cleanup has taken the children of `x`, or is going to. */
  predicate Owes(s: State, t: ThreadId, x: Id)
    requires t < |s.threads|
  {
    var at, goal := s.threads[t].at, s.threads[t].goal;
    && x in s.tree.children
    && (|| Closed(s.tree, x)
        || (&& goal.Terminating?
            && (|| x in goal.pending || at == Waiting(Taking(x)) || at == TakeClose(x)
                || (at.TakeDetach? && x in at.taken) || (at.Release? && x in at.taken))))
  }

  lemma OwnOwes(s: State, e: Event, t: ThreadId, x: Id)
    requires SupervisionCleanup.Inv(s) && t < |s.threads| && Owes(s, t, x) && !Closed(s.tree, x)
    requires (e.Step? || e.StepOn?) && e.t == t
    ensures t < |Next(s, e).threads| && Owes(Next(s, e), t, x)
  {
    hide Base;
    ClosedStays(s, e, x);
    assert StageOk(s, s.threads[t].at, s.threads[t].goal);
  }

  lemma NextOwes(s: State, e: Event, t: ThreadId, x: Id)
    requires SupervisionCleanup.Inv(s) && t < |s.threads| && Owes(s, t, x)
    ensures t < |Next(s, e).threads| && Owes(Next(s, e), t, x)
  {
    ClosedStays(s, e, x);
    if Closed(s.tree, x) {
      ThreadsStay(s, e);
      hide Next;
    } else if (e.Step? || e.StepOn?) && e.t == t {
      OwnOwes(s, e, t, x);
    } else {
      ThreadsStay(s, e);
      hide Next, SupervisionCleanup.Inv;
    }
  }

  lemma ThreadsStay(s: State, e: Event)
    ensures |Next(s, e).threads| == |s.threads|
    ensures forall u :: 0 <= u < |s.threads| && s.threads[u] != Thread(Outside, Nothing) && !((e.Step? || e.StepOn?) && e.t == u) ==>
              Next(s, e).threads[u] == s.threads[u]
  {
    hide Act;
  }

  lemma {:induction false} RunOwes(s: State, events: seq<Event>, t: ThreadId, x: Id)
    requires SupervisionCleanup.Inv(s) && t < |s.threads| && Owes(s, t, x)
    ensures t < |Run(s, events).threads| && Owes(Run(s, events), t, x)
    decreases |events|
  {
    hide SupervisionCleanup.Inv, Next, Owes;
    if events != [] {
      NextOwes(s, events[0], t, x);
      NextInv(s, events[0]);
      RunOwes(Next(s, events[0]), events[1..], t, x);
    }
  }

  /** In every run, every child that a cleanup has taken has had its own child set closed by the
      time the cleanup goes on to leave the supervisor. */
  lemma TakenAreTerminated(s: State, events: seq<Event>, more: seq<Event>, t: ThreadId, x: Id)
    requires Init(s)
    requires var s1 := Run(s, events);
             && t < |s1.threads| && s1.threads[t].goal.Terminating? && x in s1.tree.children
             && s1.threads[t].at.Release? && x in s1.threads[t].at.taken
    ensures var s2 := Run(Run(s, events), more);
            && t < |s2.threads|
            && (!s2.threads[t].goal.Terminating? ==> Closed(s2.tree, x))
  {
    assert SupervisionCleanup.Inv(s);
    hide SupervisionCleanup.Inv, Init;
    RunInv(s, events);
    RunOwes(Run(s, events), more, t, x);
  }
}
