/**
 What an operation has brought about when it lets go of its forward entry, over every run: a
 join, a monitor, a leave and a demonitor against the very call that began them.
 */
module PgLocksEffects {
  import opened Options
  import opened PgNames
  import opened PgLocks
  import opened PgLocksInvariant
  import opened PgLocksSafety
  import opened PgLocksIndex
  import opened PgLocksReverse
  import opened PgLocksProgress
  import opened PgLocksSchedules

  // ------------------------------------------------------------------ the call that a thread is executing

  /** The call last begun by the thread, after one more event. */
  function Begun(s: State, e: Event, t: ThreadId, begun: Option<Choice>): Option<Choice>
  {
    if e.Thread? && e.t == t && t in s.threads && s.threads[t].Idle? then Some(e.choice) else begun
  }

  /** The call last begun by the thread in a run. */
  function Began(s: State, begun: Option<Choice>, events: seq<Event>, t: ThreadId): Option<Choice>
    decreases |events|
  {
    if events == [] then begun else Began(Next(s, events[0]), Begun(s, events[0], t, begun), events[1..], t)
  }

  // ------------------------------------------------------------------ how far it has come

  /** Every actor of the call is stopping, still to be dealt with, or dealt with; no other is. */
  ghost predicate Accounts(actors: seq<Actor>, stops: map<Actor, StopPc>, todo: set<Actor>, done: set<Actor>)
  {
    && (forall a :: a in actors ==> a in stops || a in todo || a in done)
    && (forall a :: a in todo || a in done ==> a in actors)
  }

  function Members(actors: seq<Actor>): set<Actor> { set a | a in actors }

  ghost predicate JoinTask(pc: JoinPc, stops: map<Actor, StopPc>, key: Key, actors: seq<Actor>)
  {
    match pc
    case Filter(k, todo, kept) => k == key && Accounts(actors, stops, Members(todo), Members(kept))
    case JoinLock(k, kept) => k == key && Accounts(actors, stops, Members(kept), {})
    case Loop(j) => LoopTask(j, {}, stops, key, actors)
    case Fetched(j, ref) => LoopTask(j, {ref.actor}, stops, key, actors)
    case Check(j, ref) => LoopTask(j, {ref.actor}, stops, key, actors)
    case Add(j, ref) => LoopTask(j, {ref.actor}, stops, key, actors)
    case Clean(k, _, _) => k == key
    case CleanHeld(k, _, _, _) => k == key
    case PruneGroup(k) => k == key
  }

  ghost predicate LoopTask(j: Join, now: set<Actor>, stops: map<Actor, StopPc>, key: Key, actors: seq<Actor>)
  {
    && j.key == key
    && Accounts(actors, stops, Members(j.todo) + now, j.accepted)
    && forall a :: a in j.processed ==> a in stops || a in now || a in j.accepted
  }

  predicate MonitorTask(pc: MonitorPc, slot: Slot, actor: Actor)
  {
    match pc
    case MonStart(l, a) => l == slot && a == actor
    case MonLock(l, ref) => l == slot && ref.actor == actor
    case MonFetched(l, ref) => l == slot && ref.actor == actor
    case MonCheck(l, ref) => l == slot && ref.actor == actor
    case MonAdd(l, ref) => l == slot && ref.actor == actor
    case MonAfter(l, ref) => l == slot && ref.actor == actor
    case MonPrune(l, ref) => l == slot && ref.actor == actor
    case MonClean(ref) => ref.actor == actor
    case MonCleanHeld(ref) => ref.actor == actor
  }

  /** The relationship is recorded neither forward nor in any relations. */
  ghost predicate Gone(s: State, r: Reg)
  {
    r !in s.forward && forall x :: !Records(s.arcs, x, r)
  }

  ghost predicate LeaveLeft(s: State, key: Key, actors: seq<Actor>, todo: set<Actor>)
  {
    && (forall a :: a in actors ==> a in todo || Gone(s, Reg(Member(key), a)))
    && (forall a :: a in todo ==> a in actors)
  }

  ghost predicate LeaveTask(s: State, pc: LeavePc, key: Key, actors: seq<Actor>)
  {
    match pc
    case LeaveLock(k, todo) => k == key && todo == actors
    case LeaveLoop(k, todo) => k == key && LeaveLeft(s, key, actors, Members(todo))
    case LeaveFetched(k, ref, todo) => k == key && LeaveLeft(s, key, actors, Members(todo) + {ref.actor})
    case LeaveHeld(k, ref, todo) => k == key && LeaveLeft(s, key, actors, Members(todo) + {ref.actor})
    case LeaveRemove(k, a, todo) => k == key && LeaveLeft(s, key, actors, Members(todo) + {a})
  }

  predicate DemonitorTask(pc: DemonitorPc, slot: Slot, actor: Actor)
  {
    match pc
    case DemStart(l, a) => l == slot && a == actor
    case DemLock(l, a, _) => l == slot && a == actor
    case DemFetched(l, ref) => l == slot && ref.actor == actor
    case DemHeld(l, ref) => l == slot && ref.actor == actor
  }

  /** The thread is idle, or executing the call it began last. */
  ghost predicate OnTask(s: State, t: ThreadId, begun: Option<Choice>)
    requires t in s.threads
  {
    match s.threads[t]
    case Idle => true
    case Joining(pc) => begun.Some? && begun.value.BeginJoin? && JoinTask(pc, s.stops, begun.value.key, begun.value.actors)
    case Monitoring(pc) => begun.Some? && begun.value.BeginMonitor? && MonitorTask(pc, begun.value.slot, begun.value.actor)
    case Leaving(pc) => begun.Some? && begun.value.BeginLeave? && LeaveTask(s, pc, begun.value.key, begun.value.actors)
    case Demonitoring(pc) => begun.Some? && begun.value.BeginDemonitor? && DemonitorTask(pc, begun.value.slot, begun.value.actor)
  }

  // ------------------------------------------------------------------ steps of the thread itself

  lemma Uncons(s: seq<Actor>)
    ensures s != [] ==> Members(s) == {s[0]} + Members(s[1..])
  {
    if s != [] { assert s == [s[0]] + s[1..]; }
  }

  lemma FilterTask(s: State, t: ThreadId, key: Key, todo: seq<Actor>, kept: seq<Actor>, actors: seq<Actor>)
    requires JoinTask(Filter(key, todo, kept), s.stops, key, actors)
    ensures var s' := StepJoin(s, t, Filter(key, todo, kept));
            s'.threads[t].Joining? ==> JoinTask(s'.threads[t].join, s.stops, key, actors)
    ensures todo == [] && kept == [] ==> forall a :: a in actors ==> a in s.stops
  {
    Uncons(todo);
    if todo != [] { assert Members(kept + [todo[0]]) == Members(kept) + {todo[0]}; }
  }

  lemma LoopStep(s: State, t: ThreadId, j: Join, key: Key, actors: seq<Actor>)
    requires JoinTask(Loop(j), s.stops, key, actors)
    ensures var s' := StepJoin(s, t, Loop(j));
            s'.threads[t].Joining? && JoinTask(s'.threads[t].join, s.stops, key, actors)
  {
    hide Ensure, AddMembers, Unlock;
    Uncons(j.todo);
  }

  lemma JoinStep(s: State, t: ThreadId, pc: JoinPc, key: Key, actors: seq<Actor>)
    requires t in s.threads && s.threads[t] == Joining(pc) && JoinTask(pc, s.stops, key, actors)
    ensures var s' := StepJoin(s, t, pc);
            t in s'.threads && (s'.threads[t].Idle? || (s'.threads[t].Joining? && JoinTask(s'.threads[t].join, s.stops, key, actors)))
  {
    hide ArcLock, ArcRelease, CleanRelations, Prune, Touch, Lock;
    match pc
    case Filter(k, todo, kept) => FilterTask(s, t, k, todo, kept, actors);
    case Loop(j) => LoopStep(s, t, j, key, actors);
    case _ =>
  }

  lemma MonitorStep(s: State, t: ThreadId, pc: MonitorPc, slot: Slot, actor: Actor)
    requires t in s.threads && s.threads[t] == Monitoring(pc) && MonitorTask(pc, slot, actor)
    ensures var s' := StepMonitor(s, t, pc);
            t in s'.threads && (s'.threads[t].Idle? || (s'.threads[t].Monitoring? && MonitorTask(s'.threads[t].monitor, slot, actor)))
  {
  }

  lemma DemonitorStep(s: State, t: ThreadId, pc: DemonitorPc, slot: Slot, actor: Actor)
    requires t in s.threads && s.threads[t] == Demonitoring(pc) && DemonitorTask(pc, slot, actor)
    ensures var s' := StepDemonitor(s, t, pc);
            t in s'.threads && (s'.threads[t].Idle? || (s'.threads[t].Demonitoring? && DemonitorTask(s'.threads[t].dem, slot, actor)))
  {
  }

  lemma GoneShrinks(s: State, s': State, r: Reg)
    requires s'.forward <= s.forward && Shrinks(s.arcs, s'.arcs)
    ensures Gone(s, r) ==> Gone(s', r)
  {
    assert forall x :: Records(s'.arcs, x, r) ==> Records(s.arcs, x, r);
  }

  lemma LeftShrinks(s: State, s': State, key: Key, actors: seq<Actor>, todo: set<Actor>)
    requires s'.forward <= s.forward && Shrinks(s.arcs, s'.arcs) && LeaveLeft(s, key, actors, todo)
    ensures LeaveLeft(s', key, actors, todo)
  {
    forall a | a in actors && a !in todo ensures Gone(s', Reg(Member(key), a)) { GoneShrinks(s, s', Reg(Member(key), a)); }
  }

  lemma LeaveRemoved(s: State, t: ThreadId, key: Key, a: Actor, todo: seq<Actor>, actors: seq<Actor>)
    requires Reverse(s, true) && t in s.threads && s.threads[t] == Leaving(LeaveRemove(key, a, todo))
    requires LeaveLeft(s, key, actors, Members(todo) + {a})
    ensures var s' := StepLeave(s, t, LeaveRemove(key, a, todo));
            LeaveTask(s', s'.threads[t].leave, key, actors)
  {
    hide SingleInv, BackedInv;
    var s', r := StepLeave(s, t, LeaveRemove(key, a, todo)), Reg(Member(key), a);
    SameShrinks(s.arcs);
    LeftShrinks(s, s', key, actors, Members(todo) + {a});
    assert Removes(s.threads[t], r);
    assert Gone(s', r);
  }

  lemma LeaveBegins(s: State, key: Key, actors: seq<Actor>)
    ensures LeaveLeft(s, key, actors, Members(actors))
  {
  }

  lemma LeaveStep(s: State, t: ThreadId, pc: LeavePc, key: Key, actors: seq<Actor>)
    requires Reverse(s, true) && t in s.threads && s.threads[t] == Leaving(pc) && LeaveTask(s, pc, key, actors)
    ensures var s' := StepLeave(s, t, pc);
            t in s'.threads && (s'.threads[t].Idle? || (s'.threads[t].Leaving? && LeaveTask(s', s'.threads[t].leave, key, actors)))
  {
    hide Reverse, LeaveLeft, Shrinks, Members, Prune, PruneIndex;
    var s' := StepLeave(s, t, pc);
    SameShrinks(s.arcs);
    match pc
    case LeaveLock(k, todo) => LeaveBegins(s', key, actors);
    case LeaveLoop(k, todo) =>
      if todo != [] {
        Uncons(todo);
        assert Members(todo) == Members(todo[1..]) + {todo[0]};
        LeftShrinks(s, s', key, actors, Members(todo));
      }
    case LeaveFetched(k, ref, todo) =>
      LockShrinks(s, ref.arc, T(t));
      if ArcFree(s, ref.arc) { LeftShrinks(s, s', key, actors, Members(todo) + {ref.actor}); }
    case LeaveHeld(k, ref, todo) =>
      ReleaseShrinks(s, ref.arc, Slots(s, ref.arc) - {Member(key)});
      LeftShrinks(s, s', key, actors, Members(todo) + {ref.actor});
    case LeaveRemove(k, a, todo) => LeaveRemoved(s, t, key, a, todo, actors);
  }

  // ------------------------------------------------------------------ steps of the others

  /** What is gone from a group stays gone, unless a thread that holds the group adds it. */
  ghost predicate KeepsGone(s: State, s': State, key: Key)
  {
    forall a :: Gone(s, Reg(Member(key), a)) ==> Gone(s', Reg(Member(key), a))
  }

  lemma ShrinkKeepsGone(s: State, s': State, key: Key)
    requires s'.forward <= s.forward && Shrinks(s.arcs, s'.arcs)
    ensures KeepsGone(s, s', key)
  {
    forall a | Gone(s, Reg(Member(key), a)) ensures Gone(s', Reg(Member(key), a)) { GoneShrinks(s, s', Reg(Member(key), a)); }
  }

  lemma EnsureKeepsGone(s: State, a: Actor, key: Key)
    ensures KeepsGone(s, Ensure(s, a), key)
  {
    assert forall x, r :: Records(Ensure(s, a).arcs, x, r) ==> Records(s.arcs, x, r);
  }

  /** Recording something else in relations. */
  lemma AddKeepsGone(s: State, x: ArcId, slot: Slot, key: Key)
    requires slot != Member(key)
    ensures KeepsGone(s, ArcRelease(s, x, Slots(s, x) + {slot}), key)
  {
    var arcs := ArcRelease(s, x, Slots(s, x) + {slot}).arcs;
    assert forall y, r :: Records(arcs, y, r) && r.slot == Member(key) ==> Records(s.arcs, y, r);
  }

  lemma SameKeepsGone(s: State, s': State, s1: State, key: Key)
    requires KeepsGone(s, s', key) && s1.arcs == s'.arcs
    requires forall a :: Reg(Member(key), a) in s1.forward ==> Reg(Member(key), a) in s'.forward
    ensures KeepsGone(s, s1, key)
  {
  }

  lemma JoinKeepsGone(s: State, u: ThreadId, key: Key)
    requires Base(s) && u in s.threads && s.threads[u].Joining? && HeldEntry(s.threads[u]) != Some(GroupEntry(key))
    ensures KeepsGone(s, StepJoin(s, u, s.threads[u].join), key)
  {
    hide Base, KeepsGone, Shrinks;
    var s' := StepJoin(s, u, s.threads[u].join);
    SameShrinks(s.arcs);
    match s.threads[u].join
    case Loop(j) =>
      if j.todo != [] && j.todo[0] !in j.processed {
        EnsureKeepsGone(s, j.todo[0], key);
        SameKeepsGone(s, Ensure(s, j.todo[0]), s', key);
      } else {
        ShrinkKeepsGone(s, s, key);
        SameKeepsGone(s, s, s', key);
      }
    case Fetched(_, ref) => LockShrinks(s, ref.arc, T(u)); ShrinkKeepsGone(s, s', key);
    case Check(_, ref) => ReleaseShrinks(s, ref.arc, Slots(s, ref.arc)); ShrinkKeepsGone(s, s', key);
    case Add(j, ref) =>
      AddKeepsGone(s, ref.arc, Member(j.key), key);
      SameKeepsGone(s, ArcRelease(s, ref.arc, Slots(s, ref.arc) + {Member(j.key)}), s', key);
    case Clean(_, _, stopped) =>
      if stopped != [] { LockShrinks(s, stopped[0].arc, T(u)); }
      ShrinkKeepsGone(s, s', key);
    case CleanHeld(_, _, ref, _) => ReleaseShrinks(s, ref.arc, Slots(s, ref.arc)); ShrinkKeepsGone(s, s', key);
    case _ => ShrinkKeepsGone(s, s', key);
  }

  lemma MonitorKeepsGone(s: State, u: ThreadId, key: Key)
    requires Base(s) && u in s.threads && s.threads[u].Monitoring?
    ensures KeepsGone(s, StepMonitor(s, u, s.threads[u].monitor), key)
  {
    hide Base, KeepsGone, Shrinks;
    var s' := StepMonitor(s, u, s.threads[u].monitor);
    ThreadLocated(s, u);
    SameShrinks(s.arcs);
    match s.threads[u].monitor
    case MonStart(_, a) =>
      EnsureKeepsGone(s, a, key);
      SameKeepsGone(s, Ensure(s, a), s', key);
    case MonFetched(_, ref) => LockShrinks(s, ref.arc, T(u)); ShrinkKeepsGone(s, s', key);
    case MonCheck(_, ref) => ReleaseShrinks(s, ref.arc, Slots(s, ref.arc)); ShrinkKeepsGone(s, s', key);
    case MonAdd(slot, ref) =>
      AddKeepsGone(s, ref.arc, slot, key);
      SameKeepsGone(s, ArcRelease(s, ref.arc, Slots(s, ref.arc) + {slot}), s', key);
    case MonClean(ref) => LockShrinks(s, ref.arc, T(u)); ShrinkKeepsGone(s, s', key);
    case MonCleanHeld(ref) => ReleaseShrinks(s, ref.arc, Slots(s, ref.arc)); ShrinkKeepsGone(s, s', key);
    case _ => ShrinkKeepsGone(s, s', key);
  }

  lemma LeaveKeepsGone(s: State, u: ThreadId, key: Key)
    requires u in s.threads && s.threads[u].Leaving?
    ensures KeepsGone(s, StepLeave(s, u, s.threads[u].leave), key)
  {
    hide KeepsGone, Shrinks;
    var s' := StepLeave(s, u, s.threads[u].leave);
    SameShrinks(s.arcs);
    match s.threads[u].leave
    case LeaveFetched(_, ref, _) => LockShrinks(s, ref.arc, T(u)); ShrinkKeepsGone(s, s', key);
    case LeaveHeld(k, ref, _) => ReleaseShrinks(s, ref.arc, Slots(s, ref.arc) - {Member(k)}); ShrinkKeepsGone(s, s', key);
    case _ => ShrinkKeepsGone(s, s', key);
  }

  lemma DemonitorKeepsGone(s: State, u: ThreadId, key: Key)
    requires u in s.threads && s.threads[u].Demonitoring?
    ensures KeepsGone(s, StepDemonitor(s, u, s.threads[u].dem), key)
  {
    hide KeepsGone, Shrinks;
    var s' := StepDemonitor(s, u, s.threads[u].dem);
    SameShrinks(s.arcs);
    match s.threads[u].dem
    case DemFetched(_, ref) => LockShrinks(s, ref.arc, T(u)); ShrinkKeepsGone(s, s', key);
    case DemHeld(slot, ref) =>
      ReleaseShrinks(Drop(s, Reg(slot, ref.actor)), ref.arc, Slots(s, ref.arc) - {slot});
      ShrinkKeepsGone(s, s', key);
    case _ => ShrinkKeepsGone(s, s', key);
  }

  /** While a thread holds a group, nobody else adds to it. */
  lemma OthersKeepGone(s: State, e: Event, t: ThreadId, key: Key)
    requires Inv(s) && t in s.threads && HeldEntry(s.threads[t]) == Some(GroupEntry(key)) && !(e.Thread? && e.t == t)
    ensures KeepsGone(s, Next(s, e), key)
  {
    hide Base, CleanInv, KeepsGone, Shrinks;
    ThreadLocated(s, t);
    EntryExclusive(s, t, GroupEntry(key));
    SameShrinks(s.arcs);
    match e
    case Thread(u, choice) =>
      if u in s.threads {
        match s.threads[u]
        case Idle => ShrinkKeepsGone(s, Next(s, e), key);
        case Joining(_) => JoinKeepsGone(s, u, key);
        case Monitoring(_) => MonitorKeepsGone(s, u, key);
        case Leaving(_) => LeaveKeepsGone(s, u, key);
        case Demonitoring(_) => DemonitorKeepsGone(s, u, key);
      } else {
        ShrinkKeepsGone(s, s, key);
      }
    case Publish(a) => ShrinkKeepsGone(s, Next(s, e), key);
    case Shutdown(a, pick) =>
      if a in s.stops {
        StopArcs(s, a, pick);
        StopForward(s, a, pick);
      }
      ShrinkKeepsGone(s, Next(s, e), key);
  }

  // ------------------------------------------------------------------ every run

  /** What every run keeps, as needed here. */
  ghost predicate Sound(s: State) { Inv(s) && Exact(s) && Reverse(s, true) }

  lemma SoundNext(s: State, e: Event)
    requires Sound(s)
    ensures Sound(Next(s, e))
  {
    hide Inv, Exact, Reverse;
    NextInv(s, e);
    NextExact(s, e);
    NextReverse(s, e, true);
  }

  /** A step of a thread moves only itself. */
  lemma ThreadMoves(s: State, t: ThreadId, choice: Choice)
    requires t in s.threads
    ensures StepThread(s, t, choice) == s || Only(s, StepThread(s, t, choice), t)
  {
    hide Waits, Work, StepJoin, StepMonitor, StepLeave, StepDemonitor;
    if !s.threads[t].Idle? {
      if Waits(s, s.threads[t]) {
        if s.threads[t].Joining? { JoinWaits(s, t); } else { OthersWait(s, t); }
      } else {
        ThreadAdvances(s, t);
      }
    }
  }

  lemma ShutdownMoves(s: State, a: Actor, pick: Slot)
    requires a in s.stops
    ensures StepStop(s, a, pick) == s || StopAdvanced(s, StepStop(s, a, pick), a)
  {
    hide StepStop, Stages;
    if pick in Drained(s.stops[a]) && EntryOf(pick) !in s.locked {
      DropAdvances(s, a, pick);
    } else if s.stops[a].Done? || StopWaits(s, s.stops[a]) || Drained(s.stops[a]) != {} {
      StopStays(s, a, pick);
    } else {
      StageAdvances(s, a, pick);
    }
  }

  lemma StopsGrow(s: State, e: Event)
    ensures s.stops.Keys <= Next(s, e).stops.Keys && s.threads.Keys == Next(s, e).threads.Keys
    ensures forall t :: t in s.threads && !(e.Thread? && e.t == t) ==> Next(s, e).threads[t] == s.threads[t]
  {
    hide StepThread, StepStop;
    match e
    case Thread(t, choice) => if t in s.threads { ThreadMoves(s, t, choice); }
    case Publish(_) =>
    case Shutdown(a, pick) => if a in s.stops { ShutdownMoves(s, a, pick); }
  }

  lemma JoinTaskLater(pc: JoinPc, stops: map<Actor, StopPc>, stops': map<Actor, StopPc>, key: Key, actors: seq<Actor>)
    requires stops.Keys <= stops'.Keys && JoinTask(pc, stops, key, actors)
    ensures JoinTask(pc, stops', key, actors)
  {
  }

  lemma LeaveTaskLater(s: State, s': State, pc: LeavePc, key: Key, actors: seq<Actor>)
    requires LeaveTask(s, pc, key, actors) && (HeldEntry(Leaving(pc)) == Some(GroupEntry(key)) ==> KeepsGone(s, s', key))
    ensures LeaveTask(s', pc, key, actors)
  {
    hide Gone;
  }

  /** What others do leaves a thread on its task. */
  lemma OthersOnTask(s: State, e: Event, t: ThreadId, begun: Option<Choice>)
    requires Sound(s) && t in s.threads && OnTask(s, t, begun) && !(e.Thread? && e.t == t)
    ensures t in Next(s, e).threads && OnTask(Next(s, e), t, begun)
  {
    hide Next, Exact, Reverse, Inv, JoinTask, LeaveTask, KeepsGone;
    StopsGrow(s, e);
    match s.threads[t]
    case Joining(pc) => JoinTaskLater(pc, s.stops, Next(s, e).stops, begun.value.key, begun.value.actors);
    case Leaving(pc) =>
      if HeldEntry(s.threads[t]) == Some(GroupEntry(begun.value.key)) { OthersKeepGone(s, e, t, begun.value.key); }
      LeaveTaskLater(s, Next(s, e), pc, begun.value.key, begun.value.actors);
    case _ =>
  }

  lemma BeginOnTask(s: State, t: ThreadId, choice: Choice)
    requires t in s.threads && s.threads[t].Idle?
    ensures t in StepThread(s, t, choice).threads && OnTask(StepThread(s, t, choice), t, Some(choice))
  {
    if choice.BeginJoin? {
      assert Accounts(choice.actors, s.stops, Members(choice.actors), Members([]));
    }
  }

  lemma OwnOnTask(s: State, t: ThreadId, choice: Choice, begun: Option<Choice>)
    requires Sound(s) && t in s.threads && OnTask(s, t, begun)
    ensures var s' := StepThread(s, t, choice);
            t in s'.threads && OnTask(s', t, if s.threads[t].Idle? then Some(choice) else begun)
  {
    hide Exact, Reverse, Inv, JoinTask, LeaveTask, MonitorTask, DemonitorTask, StepJoin, StepMonitor, StepLeave, StepDemonitor;
    ThreadMoves(s, t, choice);
    match s.threads[t]
    case Idle => BeginOnTask(s, t, choice);
    case Joining(pc) => JoinStep(s, t, pc, begun.value.key, begun.value.actors);
    case Monitoring(pc) => MonitorStep(s, t, pc, begun.value.slot, begun.value.actor);
    case Leaving(pc) => LeaveStep(s, t, pc, begun.value.key, begun.value.actors);
    case Demonitoring(pc) => DemonitorStep(s, t, pc, begun.value.slot, begun.value.actor);
  }

  lemma {:induction false} RunOnTask(s: State, begun: Option<Choice>, events: seq<Event>, t: ThreadId)
    requires Sound(s) && t in s.threads && OnTask(s, t, begun)
    ensures var s' := Run(s, events);
            Sound(s') && t in s'.threads && OnTask(s', t, Began(s, begun, events, t))
    decreases |events|
  {
    hide Sound, OnTask, Next;
    if events != [] {
      NextOnTask(s, events[0], t, begun);
      SoundNext(s, events[0]);
      RunOnTask(Next(s, events[0]), Begun(s, events[0], t, begun), events[1..], t);
    }
  }

  lemma NextOnTask(s: State, e: Event, t: ThreadId, begun: Option<Choice>)
    requires Sound(s) && t in s.threads && OnTask(s, t, begun)
    ensures t in Next(s, e).threads && OnTask(Next(s, e), t, Begun(s, e, t, begun))
  {
    hide Sound, OnTask, StepThread;
    if e.Thread? && e.t == t {
      OwnOnTask(s, t, e.choice, begun);
    } else {
      OthersOnTask(s, e, t, begun);
    }
  }

  /** In every run, whatever a thread is doing is the call it began last. */
  lemma Executes(threads: set<ThreadId>, events: seq<Event>, t: ThreadId)
    requires t in threads
    ensures var s := Run(Init(threads), events);
            Sound(s) && t in s.threads && OnTask(s, t, Began(Init(threads), None, events, t))
  {
    hide Inv, Exact, Reverse;
    InitInv(threads);
    InitReverse(threads, true);
    RunOnTask(Init(threads), None, events, t);
  }

  // ------------------------------------------------------------------ what a call has brought about

  /** The step makes the thread let go of a forward entry. */
  predicate LetsGo(s: State, s': State, t: ThreadId)
    requires t in s.threads && t in s'.threads
  {
    HeldEntry(s.threads[t]).Some? && HeldEntry(s'.threads[t]).None?
  }

  /** The step makes the thread return. */
  predicate Returns(s: State, s': State, t: ThreadId)
    requires t in s.threads && t in s'.threads
  {
    !s.threads[t].Idle? && s'.threads[t].Idle?
  }

  lemma ClaimedIsListed(s: State, t: ThreadId, r: Reg)
    requires Base(s) && t in s.threads && Claims(s.threads[t], r) && r.actor !in s.stops
    ensures Lists(s, r)
  {
    hide Base;
    CoverOf(s);
    assert Known(s.arcs, s.relations, s.stops, r);
  }

  /** A call that a thread begins while idle is under way. */
  lemma CallBegins(s: State, t: ThreadId, choice: Choice)
    requires t in s.threads && s.threads[t].Idle? && !choice.Proceed?
    requires choice.BeginMonitor? || choice.BeginDemonitor? ==> !choice.slot.Member?
    ensures var s' := Next(s, Thread(t, choice));
            t in s'.threads && !s'.threads[t].Idle? && OnTask(s', t, Some(choice))
  {
    BeginOnTask(s, t, choice);
  }

  /** What a join leaves behind when it lets go of the group. */
  ghost predicate Joined(s: State, s': State, key: Key, actors: seq<Actor>)
  {
    && (forall a :: a in actors && a !in s'.stops ==> Reg(Member(key), a) in s'.forward && Lists(s', Reg(Member(key), a)))
    && s.forward <= s'.forward
    && (forall r :: r in s'.forward && r !in s.forward ==> r.slot == Member(key) && r.actor in actors)
  }

  /** The join has come to holding the group, or has already let go of it. */
  predicate TookGroup(pc: JoinPc) { !pc.Filter? && !pc.JoinLock? }

  lemma JoinedEffect(s: State, t: ThreadId, j: Join, key: Key, actors: seq<Actor>)
    requires Base(s) && t in s.threads && s.threads[t] == Joining(Loop(j)) && j.todo == [] && LoopTask(j, {}, s.stops, key, actors)
    ensures Joined(s, StepJoin(s, t, Loop(j)), key, actors)
  {
    hide Base, Lists;
    var s' := StepJoin(s, t, Loop(j));
    forall a | a in actors && a !in s.stops ensures Reg(Member(key), a) in s'.forward && Lists(s', Reg(Member(key), a)) {
      assert a in j.accepted;
      assert Claims(s.threads[t], Reg(Member(key), a));
      ClaimedIsListed(s, t, Reg(Member(key), a));
      SameLists(s, s', Reg(Member(key), a));
    }
  }

  lemma SameLists(s: State, s': State, r: Reg)
    requires s'.arcs == s.arcs && s'.relations == s.relations
    ensures Lists(s', r) <==> Lists(s, r)
  {
  }

  lemma JoinLetsGo(s: State, t: ThreadId, pc: JoinPc)
    requires t in s.threads && s.threads[t] == Joining(pc)
    ensures var s' := StepJoin(s, t, pc);
            t in s'.threads && (LetsGo(s, s', t) ==> pc.Loop? && pc.j.todo == [])
  {
  }

  lemma JoinEffect(s: State, t: ThreadId, pc: JoinPc, key: Key, actors: seq<Actor>)
    requires Base(s) && t in s.threads && s.threads[t] == Joining(pc) && JoinTask(pc, s.stops, key, actors)
    ensures var s' := StepJoin(s, t, pc);
            && t in s'.threads
            && (LetsGo(s, s', t) ==> HeldEntry(s.threads[t]) == Some(GroupEntry(key)) && Joined(s, s', key, actors))
            && (Returns(s, s', t) && !TookGroup(pc) ==> forall a :: a in actors ==> a in s.stops)
  {
    hide Base, Joined;
    JoinLetsGo(s, t, pc);
    if pc.Filter? {
      FilterTask(s, t, pc.key, pc.todo, pc.kept, actors);
    } else if pc.Loop? && pc.j.todo == [] {
      hide StepJoin;
      JoinedEffect(s, t, pc.j, key, actors);
    }
  }

  /** In every run, when a thread that began a join of some actors lets go of the group, each of
      the actors that is not stopping is recorded in the group and in its own relations, and
      the step records nothing else; a join that returns without having taken the group found
      all of its actors stopping. */
  lemma JoinLeavesBehind(threads: set<ThreadId>, events: seq<Event>, t: ThreadId, choice: Choice, key: Key, actors: seq<Actor>)
    requires t in threads && Began(Init(threads), None, events, t) == Some(BeginJoin(key, actors))
    ensures var s := Run(Init(threads), events);
            var s' := Next(s, Thread(t, choice));
            && t in s.threads && t in s'.threads
            && (LetsGo(s, s', t) ==> HeldEntry(s.threads[t]) == Some(GroupEntry(key)) && Joined(s, s', key, actors))
            && (Returns(s, s', t) && !(s.threads[t].Joining? && TookGroup(s.threads[t].join)) ==> forall a :: a in actors ==> a in s.stops)
  {
    hide Base, CleanInv, Exact, Reverse, JoinTask, Joined, Run, Began, StepJoin;
    Executes(threads, events, t);
    var s := Run(Init(threads), events);
    StopsGrow(s, Thread(t, choice));
    if !s.threads[t].Idle? { JoinEffect(s, t, s.threads[t].join, key, actors); }
  }

  /** What a monitor leaves behind when it lets go of the entry. */
  ghost predicate Monitored(s: State, s': State, slot: Slot, actor: Actor)
  {
    && (actor !in s'.stops ==> Reg(slot, actor) in s'.forward && Lists(s', Reg(slot, actor)))
    && s.forward <= s'.forward <= s.forward + {Reg(slot, actor)}
  }

  lemma MonitorEffect(s: State, t: ThreadId, pc: MonitorPc, slot: Slot, actor: Actor)
    requires Base(s) && t in s.threads && s.threads[t] == Monitoring(pc) && MonitorTask(pc, slot, actor)
    ensures var s' := StepMonitor(s, t, pc);
            && (LetsGo(s, s', t) ==> HeldEntry(s.threads[t]) == Some(EntryOf(slot)) && Monitored(s, s', slot, actor))
            && (Returns(s, s', t) ==> pc.MonAfter? || pc.MonCleanHeld?)
  {
    hide Base;
    ThreadLocated(s, t);
    if pc.MonAdd? { assert Refers(s.threads[t], pc.ref); }
  }

  /** In every run, when a thread that began to monitor lets go of the entry, the listener is
      recorded in it and in its own relations, unless it is stopping, and nothing else is;
      and it has let go of the entry before it returns. */
  lemma MonitorLeavesBehind(threads: set<ThreadId>, events: seq<Event>, t: ThreadId, choice: Choice, slot: Slot, actor: Actor)
    requires t in threads && Began(Init(threads), None, events, t) == Some(BeginMonitor(slot, actor))
    ensures var s := Run(Init(threads), events);
            var s' := Next(s, Thread(t, choice));
            && t in s.threads && t in s'.threads
            && (LetsGo(s, s', t) ==> HeldEntry(s.threads[t]) == Some(EntryOf(slot)) && Monitored(s, s', slot, actor))
            && (Returns(s, s', t) ==> s.threads[t].Monitoring? && (s.threads[t].monitor.MonAfter? || s.threads[t].monitor.MonCleanHeld?))
  {
    hide Base, CleanInv, Exact, Reverse, MonitorTask, Monitored, Run, Began, StepMonitor;
    Executes(threads, events, t);
    var s := Run(Init(threads), events);
    StopsGrow(s, Thread(t, choice));
    if !s.threads[t].Idle? { MonitorEffect(s, t, s.threads[t].monitor, slot, actor); }
  }

  lemma RecordedHasEntry(s: State, x: ArcId, r: Reg)
    requires Base(s) && Reverse(s, true) && r.slot.Member?
    ensures Records(s.arcs, x, r) ==> EntryOf(r.slot) in s.entries
  {
    hide SingleInv, RemovedInv, EntryInv, HolderInv, RefInv, CurrentInv, AddInv, TakenInv, SensibleInv, CoverInv;
    if Records(s.arcs, x, r) && r !in s.forward {
      assert Backed(s.forward, s.threads, r);
      var t :| t in s.threads && Claims(s.threads[t], r);
      assert Defaulted(s.threads[t]) == Some(EntryOf(r.slot));
    }
  }

  /** No entry, no member: neither forward nor in any relations. */
  lemma NoEntryNoMembers(s: State, key: Key, a: Actor)
    requires Base(s) && Reverse(s, true) && GroupEntry(key) !in s.entries
    ensures Gone(s, Reg(Member(key), a))
  {
    hide Reverse, Base, Records;
    var r := Reg(Member(key), a);
    forall x ensures !Records(s.arcs, x, r) { RecordedHasEntry(s, x, r); }
    ExistsForward(s, r);
  }

  lemma LeaveEffect(s: State, t: ThreadId, pc: LeavePc, key: Key, actors: seq<Actor>)
    requires Base(s) && Reverse(s, true) && t in s.threads && s.threads[t] == Leaving(pc) && LeaveTask(s, pc, key, actors)
    ensures var s' := StepLeave(s, t, pc);
            && (forall r :: r in s.forward && r !in s'.forward ==> r.slot == Member(key) && r.actor in actors)
            && s'.forward <= s.forward
            && (Returns(s, s', t) ==> forall a :: a in actors ==> Gone(s', Reg(Member(key), a)))
  {
    hide Base, Reverse;
    var s' := StepLeave(s, t, pc);
    if Returns(s, s', t) {
      if pc.LeaveLock? {
        forall a | a in actors ensures Gone(s', Reg(Member(key), a)) { NoEntryNoMembers(s, key, a); }
      } else {
        SameShrinks(s.arcs);
        LeftShrinks(s, s', key, actors, {});
      }
    }
  }

  /** In every run, when a thread that began to take some actors out of a group returns, none of
      them is in the group or has it in its relations; on the way nothing else is removed. */
  lemma LeaveLeavesBehind(threads: set<ThreadId>, events: seq<Event>, t: ThreadId, choice: Choice, key: Key, actors: seq<Actor>)
    requires t in threads && Began(Init(threads), None, events, t) == Some(BeginLeave(key, actors))
    ensures var s := Run(Init(threads), events);
            var s' := Next(s, Thread(t, choice));
            && t in s.threads && t in s'.threads
            && (forall r :: r in s.forward && r !in s'.forward ==> r.slot == Member(key) && r.actor in actors)
            && (Returns(s, s', t) ==> forall a :: a in actors ==> Gone(s', Reg(Member(key), a)))
  {
    hide Base, CleanInv, Exact, Reverse, LeaveTask, Gone, Run, Began, StepLeave;
    Executes(threads, events, t);
    var s := Run(Init(threads), events);
    StopsGrow(s, Thread(t, choice));
    if !s.threads[t].Idle? { LeaveEffect(s, t, s.threads[t].leave, key, actors); }
  }

  lemma DropRemoves(s: State, r: Reg)
    requires Base(s)
    ensures Drop(s, r).forward == s.forward - {r} && Drop(s, r).arcs == s.arcs
  {
    hide EntryInv, HolderInv, RefInv, CurrentInv, AddInv, TakenInv, SensibleInv, CoverInv;
  }

  lemma DemonitorEffect(s: State, t: ThreadId, pc: DemonitorPc, slot: Slot, actor: Actor)
    requires Base(s) && Reverse(s, true) && t in s.threads && s.threads[t] == Demonitoring(pc) && DemonitorTask(pc, slot, actor)
    ensures var s' := StepDemonitor(s, t, pc);
            && s'.forward == (if Returns(s, s', t) then s.forward - {Reg(slot, actor)} else s.forward)
            && (LetsGo(s, s', t) ==> Gone(s', Reg(slot, actor)))
  {
    hide Base, RemovedInv, BackedInv, Drop, SingleInv;
    DropRemoves(s, Reg(slot, actor));
    ThreadLocated(s, t);
    if pc.DemHeld? {
      assert Refers(s.threads[t], pc.ref);
      ReleasedRecordsNot(s, pc.ref, slot);
      assert StepDemonitor(s, t, pc).arcs == ArcRelease(s, pc.ref.arc, Slots(s, pc.ref.arc) - {slot}).arcs;
    }
  }

  /** In every run, a thread that began to demonitor removes the listener from the entry with its
      last step, and nothing else with any; having found relations, it leaves the
      listener in none. */
  lemma DemonitorLeavesBehind(threads: set<ThreadId>, events: seq<Event>, t: ThreadId, choice: Choice, slot: Slot, actor: Actor)
    requires t in threads && Began(Init(threads), None, events, t) == Some(BeginDemonitor(slot, actor))
    ensures var s := Run(Init(threads), events);
            var s' := Next(s, Thread(t, choice));
            && t in s.threads && t in s'.threads
            && s'.forward == (if Returns(s, s', t) then s.forward - {Reg(slot, actor)} else s.forward)
            && (LetsGo(s, s', t) ==> Gone(s', Reg(slot, actor)))
  {
    hide Base, CleanInv, Exact, Reverse, DemonitorTask, Gone, Run, Began, StepDemonitor;
    Executes(threads, events, t);
    var s := Run(Init(threads), events);
    StopsGrow(s, Thread(t, choice));
    if !s.threads[t].Idle? { DemonitorEffect(s, t, s.threads[t].dem, slot, actor); }
  }
}
