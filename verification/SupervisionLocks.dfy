/**
 The supervision operations step by step, under the one lock that every structural update
 takes. Statuses are published outside that lock, so a link may read a status and act on it
 after it has changed; what an actor's cleanup guarantees must hold all the same.
 */
module SupervisionLocks {
  import opened Options
  import opened Supervision

  type ThreadId = nat

  datatype Update = Linking(c: Id, p: Id) | Unlinking(c: Id, p: Id) | Taking(p: Id)

  /** Where a thread is in a structural update; from `LinkChild` on it holds the lock. */
  datatype At =
    | Outside
    | Waiting(update: Update)
    | LinkChild(c: Id, p: Id)                     // reads the child's status
    | LinkParent(c: Id, p: Id)                    // the child may be linked; reads the supervisor's status
    | LinkInsert(c: Id, p: Id)                    // both may be linked; joins the child set if it is open
    | LinkDrop(c: Id, p: Id, previous: Id)        // leaves the previous supervisor's child set
    | UnlinkCheck(c: Id, p: Id)                   // leaves the child set of the current supervisor
    | UnlinkClear(c: Id, p: Id)                   // clears the supervisor
    | TakeClose(p: Id)                            // closes the child set
    | TakeDetach(p: Id, taken: set<Id>, rest: set<Id>) // cuts the children loose, one by one
    | Release(taken: set<Id>)

  /** What a thread does once its update is over. The last five are an actor's cleanup. */
  datatype Goal =
    | Nothing
    | Publishing(a: Id)                           // publishes Stopping
    | Terminating(a: Id, pending: set<Id>)        // takes the children of each pending actor
    | Reading(a: Id)                              // has notified the supervisor; reads who it is
    | Leaving(a: Id)                              // unlinks from the supervisor it read
    | Finishing(a: Id)                            // publishes Stopped
    | Cleaned(a: Id)

  datatype Thread = Thread(at: At, goal: Goal)

  datatype State = State(tree: Tree, lock: Option<ThreadId>, threads: seq<Thread>)

  datatype Event =
    | Begin(t: ThreadId, update: Update)
    | BeginCleanup(t: ThreadId, a: Id)
    | Step(t: ThreadId)
    | StepOn(t: ThreadId, x: Id)                  // the next child to detach, or the next actor to terminate
    | Advance(a: Id, status: Status)              // any other status change

  predicate Holds(at: At) { !at.Outside? && !at.Waiting? }

  function Publish(t: Tree, a: Id, status: Status): Tree
  {
    if a in t.status && Rank(t.status[a]) < Rank(status) then t.(status := t.status[a := status]) else t
  }

  predicate MayLink(t: Tree, a: Id) { a in t.status && Rank(t.status[a]) < Rank(Draining) }

  function Put(s: State, t: ThreadId, at: At): State
    requires t < |s.threads|
  {
    s.(threads := s.threads[t := s.threads[t].(at := at)])
  }

  function Enter(update: Update): At
  {
    match update
    case Linking(c, p) => LinkChild(c, p)
    case Unlinking(c, p) => UnlinkCheck(c, p)
    case Taking(p) => TakeClose(p)
  }

  datatype Progress = Progress(tree: Tree, at: At)

  /** What the holder of the lock does next. */
  function Act(tree: Tree, at: At): Progress
  {
    match at
    case LinkChild(c, p) => Progress(tree, if MayLink(tree, c) then LinkParent(c, p) else Release({}))
    case LinkParent(c, p) => Progress(tree, if MayLink(tree, p) then LinkInsert(c, p) else Release({}))
    case LinkInsert(c, p) =>
      if Closed(tree, p) then Progress(tree, Release({}))
      else
        var joined := SetKids(tree, p, Kids(tree, p) + {c});
        var previous := SupervisorOf(tree, c);
        if previous == Some(p) then Progress(joined, Release({}))
        else Progress(SetSupervisor(joined, c, Some(p)), if previous.Some? then LinkDrop(c, p, previous.value) else Release({}))
    case LinkDrop(c, p, previous) => Progress(DropKid(tree, previous, c), Release({}))
    case UnlinkCheck(c, p) =>
      if SupervisorOf(tree, c) == Some(p) then Progress(DropKid(tree, p, c), UnlinkClear(c, p))
      else Progress(tree, Release({}))
    case UnlinkClear(c, p) => Progress(SetSupervisor(tree, c, None), Release({}))
    case TakeClose(p) =>
      if p in tree.children then Progress(tree.(children := tree.children[p := None]), TakeDetach(p, Kids(tree, p), Kids(tree, p)))
      else Progress(tree, Release({}))
    case TakeDetach(p, taken, rest) => Progress(tree, if rest == {} then Release(taken) else at)
    case _ => Progress(tree, at)
  }

  /** A step of an update. */
  function StepUpdate(s: State, t: ThreadId): State
    requires t < |s.threads|
  {
    match s.threads[t].at
    case Waiting(update) => if s.lock.None? then Put(s.(lock := Some(t)), t, Enter(update)) else s
    case Release(taken) =>
      var goal := match s.threads[t].goal
        case Terminating(a, pending) => Terminating(a, pending + taken)
        case Leaving(a) => Finishing(a)
        case other => other;
      s.(lock := None, threads := s.threads[t := Thread(Outside, goal)])
    case at =>
      var r := Act(s.tree, at);
      Put(s.(tree := r.tree), t, r.at)
  }

  /** A step of a cleanup, between updates. */
  function StepCleanup(s: State, t: ThreadId): State
    requires t < |s.threads| && s.threads[t].at.Outside?
  {
    match s.threads[t].goal
    case Publishing(a) =>
      s.(tree := Publish(s.tree, a, Stopping), threads := s.threads[t := Thread(Outside, Terminating(a, {a}))])
    case Terminating(a, pending) =>
      if pending == {} then s.(threads := s.threads[t := Thread(Outside, Reading(a))]) else s
    case Reading(a) =>
      var supervisor := SupervisorOf(s.tree, a);
      s.(threads := s.threads[t := if supervisor.Some? then Thread(Waiting(Unlinking(a, supervisor.value)), Leaving(a))
                                   else Thread(Outside, Finishing(a))])
    case Finishing(a) =>
      s.(tree := Publish(s.tree, a, Stopped), threads := s.threads[t := Thread(Outside, Cleaned(a))])
    case _ => s
  }

  function StepPick(s: State, t: ThreadId, x: Id): State
    requires t < |s.threads|
  {
    match s.threads[t].at
    case TakeDetach(p, taken, rest) =>
      if x !in rest then s
      else
        var tree := if SupervisorOf(s.tree, x) == Some(p) then SetSupervisor(s.tree, x, None) else s.tree;
        Put(s.(tree := tree), t, TakeDetach(p, taken, rest - {x}))
    case Outside =>
      (match s.threads[t].goal
       case Terminating(a, pending) =>
         if x in pending then s.(threads := s.threads[t := Thread(Waiting(Taking(x)), Terminating(a, pending - {x}))]) else s
       case _ => s)
    case _ => s
  }

  function Next(s: State, e: Event): State
  {
    match e
    case Begin(t, update) =>
      if t < |s.threads| && s.threads[t] == Thread(Outside, Nothing) then Put(s, t, Waiting(update)) else s
    case BeginCleanup(t, a) =>
      if t < |s.threads| && s.threads[t] == Thread(Outside, Nothing) && a in s.tree.status then
        s.(threads := s.threads[t := Thread(Outside, Publishing(a))])
      else s
    case Step(t) =>
      if t >= |s.threads| then s
      else if s.threads[t].at.Outside? then StepCleanup(s, t) else StepUpdate(s, t)
    case StepOn(t, x) => if t < |s.threads| then StepPick(s, t, x) else s
    case Advance(a, status) => s.(tree := Publish(s.tree, a, status))
  }

  function Run(s: State, events: seq<Event>): State
    decreases |events|
  {
    if events == [] then s else Run(Next(s, events[0]), events[1..])
  }

  ghost predicate Init(s: State)
  {
    && Valid(s.tree) && s.lock.None?
    && forall t :: 0 <= t < |s.threads| ==> s.threads[t] == Thread(Outside, Nothing)
  }

  // ------------------------------------------------------------------ the tree, whoever holds the lock

  /** The tree as the update in progress will leave it. */
  function Completed(tree: Tree, at: At): Tree
  {
    match at
    case LinkDrop(c, p, previous) => DropKid(tree, previous, c)
    case UnlinkClear(c, p) => SetSupervisor(tree, c, None)
    case TakeDetach(p, taken, rest) => tree.(supervisor := Detached(tree.supervisor, p, rest))
    case _ => tree
  }

  predicate AtOk(tree: Tree, at: At)
  {
    match at
    case LinkParent(c, p) => c in tree.status
    case LinkInsert(c, p) => c in tree.status && p in tree.status
    case LinkDrop(c, p, previous) => SupervisorOf(tree, c) == Some(p)
    case UnlinkClear(c, p) => c in tree.supervisor && SupervisorOf(tree, c) == Some(p)
    case _ => true
  }

  ghost predicate LockOk(s: State)
  {
    && (forall t :: 0 <= t < |s.threads| ==> (Holds(s.threads[t].at) <==> s.lock == Some(t)))
    && (s.lock.Some? ==> s.lock.value < |s.threads|)
  }

  ghost predicate TreeOk(s: State)
    requires LockOk(s)
  {
    && Cells(s.tree)
    && if s.lock.None? then Valid(s.tree)
       else Valid(Completed(s.tree, s.threads[s.lock.value].at)) && AtOk(s.tree, s.threads[s.lock.value].at)
  }

  ghost predicate Base(s: State)
  {
    LockOk(s) && TreeOk(s)
  }

  lemma PublishKeeps(t: Tree, a: Id, status: Status)
    ensures var t' := Publish(t, a, status);
            && t'.children == t.children && t'.supervisor == t.supervisor && t'.status.Keys == t.status.Keys
            && (forall b :: b in t.status ==> Rank(t.status[b]) <= Rank(t'.status[b]))
            && (a in t.status ==> Rank(t'.status[a]) >= Rank(status))
  {
  }

  lemma SameShape(t: Tree, t': Tree)
    requires Valid(t) && t'.children == t.children && t'.supervisor == t.supervisor && t'.status.Keys == t.status.Keys
    ensures Valid(t')
  {
    forall c: Id, p: Id ensures SupervisorOf(t', c) == Some(p) <==> c in Kids(t', p) {
      assert SupervisorOf(t, c) == Some(p) <==> c in Kids(t, p);
    }
  }

  lemma PublishBase(s: State, s': State, a: Id, status: Status)
    requires Base(s) && s'.tree == Publish(s.tree, a, status) && s'.lock == s.lock && |s'.threads| == |s.threads|
    requires forall t :: 0 <= t < |s.threads| ==>
               s'.threads[t].at == s.threads[t].at || (!Holds(s'.threads[t].at) && !Holds(s.threads[t].at))
    ensures Base(s')
  {
    PublishKeeps(s.tree, a, status);
    if s.lock.None? {
      SameShape(s.tree, s'.tree);
    } else {
      var at := s.threads[s.lock.value].at;
      assert s'.threads[s.lock.value].at == at;
      SameShape(Completed(s.tree, at), Completed(s'.tree, at));
    }
  }

  lemma CleanupBase(s: State, t: ThreadId)
    requires Base(s) && t < |s.threads| && s.threads[t].at.Outside?
    ensures Base(StepCleanup(s, t))
  {
    var s' := StepCleanup(s, t);
    match s.threads[t].goal
    case Publishing(a) => PublishBase(s, s', a, Stopping);
    case Finishing(a) => PublishBase(s, s', a, Stopped);
    case _ => PublishBase(s, s', 0, Unstarted);
  }

  lemma DetachSame(tree: Tree, p: Id, taken: set<Id>, rest: set<Id>, x: Id)
    requires x in rest
    ensures var tree' := if SupervisorOf(tree, x) == Some(p) then SetSupervisor(tree, x, None) else tree;
            Completed(tree', TakeDetach(p, taken, rest - {x})) == Completed(tree, TakeDetach(p, taken, rest))
  {
  }

  /** Each step of the holder leaves a tree whose completion is valid. */
  lemma ActKeeps(tree: Tree, at: At)
    requires Cells(tree) && Valid(Completed(tree, at)) && AtOk(tree, at) && Holds(at) && !at.Release?
    ensures var r := Act(tree, at);
            Cells(r.tree) && Valid(Completed(r.tree, r.at)) && AtOk(r.tree, r.at) && Holds(r.at)
  {
    var r := Act(tree, at);
    match at
    case LinkInsert(c, p) =>
      if !Closed(tree, p) {
        AttachMeaning(tree, c, p);
        assert Completed(r.tree, r.at) == Attach(tree, c, p);
      }
    case UnlinkCheck(c, p) =>
      if SupervisorOf(tree, c) == Some(p) {
        UnlinkMeaning(tree, c, p);
        assert Completed(r.tree, r.at) == Unlink(tree, c, p);
      }
    case TakeClose(p) =>
      if p in tree.children {
        TakeChildrenMeaning(tree, p);
        assert Completed(r.tree, r.at) == TakeChildren(tree, p);
      }
    case TakeDetach(p, taken, rest) =>
      if rest == {} { assert Detached(tree.supervisor, p, rest) == tree.supervisor; }
    case _ =>
  }

  lemma UpdateBase(s: State, t: ThreadId)
    requires Base(s) && t < |s.threads| && !s.threads[t].at.Outside?
    ensures Base(StepUpdate(s, t))
  {
    var at := s.threads[t].at;
    if !at.Waiting? && !at.Release? { ActKeeps(s.tree, at); }
    hide Act, Valid;
  }

  lemma PickBase(s: State, t: ThreadId, x: Id)
    requires Base(s) && t < |s.threads|
    ensures Base(StepPick(s, t, x))
  {
    hide Valid;
    match s.threads[t].at
    case TakeDetach(p, taken, rest) =>
      if x in rest { DetachSame(s.tree, p, taken, rest, x); }
    case _ =>
  }

  lemma NextBase(s: State, e: Event)
    requires Base(s)
    ensures Base(Next(s, e))
  {
    match e
    case Begin(t, update) =>
    case BeginCleanup(t, a) =>
    case Step(t) =>
      hide Base;
      if t < |s.threads| { if s.threads[t].at.Outside? { CleanupBase(s, t); } else { UpdateBase(s, t); } }
    case StepOn(t, x) => hide Base; if t < |s.threads| { PickBase(s, t, x); }
    case Advance(a, status) => hide Base; PublishBase(s, Next(s, e), a, status);
  }
}
