/**
 What the lock order buys: the operations and shutdowns in flight never block each other
 for good. In every reachable state some of them can move on, and they can all be brought
 to their end.
 */
module PgLocksProgress {
  import opened Options
  import opened PgNames
  import opened PgLocks
  import opened PgLocksInvariant
  import opened PgLocksSafety
  import opened PgLocksReverse

  // ------------------------------------------------------------------ every lock has a holder

  ghost predicate LockedInv(locked: map<Entry, ThreadId>, threads: map<ThreadId, Pc>)
  {
    forall e :: e in locked ==> locked[e] in threads && HeldEntry(threads[locked[e]]) == Some(e)
  }

  /** The process is at a position at which it holds relations x. */
  ghost predicate Holds(threads: map<ThreadId, Pc>, stops: map<Actor, StopPc>, p: Proc, x: ArcId)
  {
    match p
    case T(t) => t in threads && HeldRef(threads[t]).Some? && HeldRef(threads[t]).value.arc == x
    case S(a) => a in stops && StopHeld(stops[a]) == Some(x)
  }

  ghost predicate HeldInv(arcs: seq<Arc>, threads: map<ThreadId, Pc>, stops: map<Actor, StopPc>)
  {
    forall x :: 0 <= x < |arcs| && arcs[x].holder.Some? ==> Holds(threads, stops, arcs[x].holder.value, x)
  }

  ghost predicate Held(s: State)
  {
    LockedInv(s.locked, s.threads) && HeldInv(s.arcs, s.threads, s.stops)
  }

  /** Only the locks and the positions matter. */
  lemma SameHeld(s: State, s': State)
    requires Held(s) && s'.locked == s.locked && s'.arcs == s.arcs && s'.threads == s.threads && s'.stops == s.stops
    ensures Held(s')
  {
  }

  lemma MoveHeld(s: State, t: ThreadId, pc: Pc)
    requires Held(s) && t in s.threads && HeldEntry(pc) == HeldEntry(s.threads[t])
    requires HeldRef(s.threads[t]).Some? ==> HeldRef(pc) == HeldRef(s.threads[t])
    ensures Held(At(s, t, pc))
  {
    forall x | 0 <= x < |s.arcs| && s.arcs[x].holder.Some? ensures Holds(At(s, t, pc).threads, s.stops, s.arcs[x].holder.value, x) {
      assert Holds(s.threads, s.stops, s.arcs[x].holder.value, x);
    }
  }

  lemma LockHeld(s: State, t: ThreadId, e: Entry, pc: Pc)
    requires Held(s) && t in s.threads && HeldEntry(s.threads[t]).None? && HeldRef(s.threads[t]).None? && HeldEntry(pc) == Some(e)
    ensures Held(At(Lock(s, t, e), t, pc))
  {
    forall x | 0 <= x < |s.arcs| && s.arcs[x].holder.Some? ensures Holds(At(s, t, pc).threads, s.stops, s.arcs[x].holder.value, x) {
      assert Holds(s.threads, s.stops, s.arcs[x].holder.value, x);
    }
  }

  lemma UnlockHeld(s: State, t: ThreadId, e: Entry, pc: Pc)
    requires Held(s) && t in s.threads && HeldEntry(s.threads[t]) == Some(e) && HeldRef(s.threads[t]).None?
    ensures Held(At(Unlock(s, e), t, pc))
  {
    forall x | 0 <= x < |s.arcs| && s.arcs[x].holder.Some? ensures Holds(At(s, t, pc).threads, s.stops, s.arcs[x].holder.value, x) {
      assert Holds(s.threads, s.stops, s.arcs[x].holder.value, x);
    }
  }

  lemma EnsureHeld(s: State, a: Actor)
    requires Held(s)
    ensures Held(Ensure(s, a)) && Ensure(s, a).threads == s.threads
  {
    var s' := Ensure(s, a);
    forall x | 0 <= x < |s'.arcs| && s'.arcs[x].holder.Some? ensures Holds(s'.threads, s'.stops, s'.arcs[x].holder.value, x) {
      assert s'.arcs[x] == s.arcs[x];
    }
  }

  lemma AcquireHeld(s: State, t: ThreadId, ref: Ref, pc: Pc)
    requires Held(s) && t in s.threads && HeldEntry(pc) == HeldEntry(s.threads[t])
    requires HeldRef(s.threads[t]).None? && HeldRef(pc) == Some(ref)
    ensures Held(At(ArcLock(s, ref.arc, T(t)), t, pc))
  {
    var s' := At(ArcLock(s, ref.arc, T(t)), t, pc);
    forall x | 0 <= x < |s'.arcs| && s'.arcs[x].holder.Some? ensures Holds(s'.threads, s'.stops, s'.arcs[x].holder.value, x) {
      if x != ref.arc { assert Holds(s.threads, s.stops, s.arcs[x].holder.value, x); }
    }
  }

  lemma ReleaseHeld(s: State, t: ThreadId, ref: Ref, slots: set<Slot>, pc: Pc)
    requires Held(s) && t in s.threads && HeldEntry(pc) == HeldEntry(s.threads[t]) && HeldRef(s.threads[t]) == Some(ref)
    ensures Held(At(ArcRelease(s, ref.arc, slots), t, pc))
  {
    var s' := At(ArcRelease(s, ref.arc, slots), t, pc);
    forall x | 0 <= x < |s'.arcs| && s'.arcs[x].holder.Some? ensures Holds(s'.threads, s'.stops, s'.arcs[x].holder.value, x) {
      if x != ref.arc { assert Holds(s.threads, s.stops, s.arcs[x].holder.value, x); }
    }
  }

  lemma CleanHeldBy(s: State, t: ThreadId, ref: Ref, pc: Pc)
    requires Held(s) && t in s.threads && HeldEntry(pc) == HeldEntry(s.threads[t]) && HeldRef(s.threads[t]) == Some(ref)
    ensures Held(At(CleanRelations(s, ref), t, pc))
  {
    hide Held;
    ReleaseHeld(s, t, ref, Slots(s, ref.arc), pc);
    SameHeld(At(ArcRelease(s, ref.arc, Slots(s, ref.arc)), t, pc), At(CleanRelations(s, ref), t, pc));
  }

  /** Relations and entry are released together; `mid` is a position that holds the entry only. */
  lemma ReleaseBothHeld(s: State, s1: State, t: ThreadId, ref: Ref, slots: set<Slot>, e: Entry, mid: Pc, pc: Pc)
    requires Held(s) && s1 == s.(forward := s1.forward, entries := s1.entries)
    requires t in s.threads && HeldEntry(s.threads[t]) == HeldEntry(mid) == Some(e)
    requires HeldRef(s.threads[t]) == Some(ref) && HeldRef(mid).None?
    ensures Held(At(Unlock(ArcRelease(s1, ref.arc, slots), e), t, pc))
  {
    hide Held;
    SameHeld(s, s1);
    ReleaseHeld(s1, t, ref, slots, mid);
    var s2 := At(ArcRelease(s1, ref.arc, slots), t, mid);
    UnlockHeld(s2, t, e, pc);
    assert At(Unlock(s2, e), t, pc) == At(Unlock(ArcRelease(s1, ref.arc, slots), e), t, pc);
  }

  lemma JoinLoopHeld(s: State, t: ThreadId, j: Join)
    requires Held(s) && t in s.threads && s.threads[t] == Joining(Loop(j))
    ensures Held(StepJoin(s, t, Loop(j)))
  {
    hide Held, Ensure;
    if j.todo == [] {
      var pc := Joining(Clean(j.key, j.accepted == {}, j.stopped));
      SameHeld(s, AddMembers(s, j));
      UnlockHeld(AddMembers(s, j), t, GroupEntry(j.key), pc);
    } else {
      EnsureHeld(s, j.todo[0]);
      var pc := StepJoin(s, t, Loop(j)).threads[t];
      if j.todo[0] in j.processed { MoveHeld(s, t, pc); } else { MoveHeld(Ensure(s, j.todo[0]), t, pc); }
    }
  }

  lemma JoinEntryHeld(s: State, t: ThreadId)
    requires Held(s) && t in s.threads && s.threads[t].Joining? && (s.threads[t].join.JoinLock? || s.threads[t].join.PruneGroup?)
    ensures Held(StepJoin(s, t, s.threads[t].join))
  {
    hide Held;
    var e := GroupEntry(s.threads[t].join.key);
    if e !in s.locked {
      if s.threads[t].join.JoinLock? {
        SameHeld(s, Touch(s, e));
        LockHeld(Touch(s, e), t, e, StepJoin(s, t, s.threads[t].join).threads[t]);
      } else {
        SameHeld(s, Prune(s, e));
        MoveHeld(Prune(s, e), t, Idle);
      }
    }
  }

  lemma JoinCheckHeld(s: State, t: ThreadId, j: Join, ref: Ref)
    requires Held(s) && t in s.threads && (s.threads[t] == Joining(Check(j, ref)) || s.threads[t] == Joining(Add(j, ref)))
    ensures Held(StepJoin(s, t, s.threads[t].join))
  {
    hide Held, ArcRelease;
    var pc := StepJoin(s, t, s.threads[t].join).threads[t];
    if s.threads[t].join.Add? {
      ReleaseHeld(s, t, ref, Slots(s, ref.arc) + {Member(j.key)}, pc);
    } else if Stopping(s, ref.actor) {
      ReleaseHeld(s, t, ref, Slots(s, ref.arc), pc);
    } else {
      MoveHeld(s, t, pc);
    }
  }

  lemma JoinCleanHeld(s: State, t: ThreadId)
    requires Held(s) && t in s.threads && s.threads[t].Joining? && (s.threads[t].join.Clean? || s.threads[t].join.CleanHeld?)
    ensures Held(StepJoin(s, t, s.threads[t].join))
  {
    hide Held, ArcLock, CleanRelations;
    match s.threads[t].join
    case Clean(key, none, stopped) =>
      if stopped == [] { MoveHeld(s, t, if none then Joining(PruneGroup(key)) else Idle); }
      else if ArcFree(s, stopped[0].arc) { AcquireHeld(s, t, stopped[0], Joining(CleanHeld(key, none, stopped[0], stopped[1..]))); }
    case CleanHeld(key, none, ref, stopped) => CleanHeldBy(s, t, ref, Joining(Clean(key, none, stopped)));
  }

  lemma StepJoinHeld(s: State, t: ThreadId)
    requires Held(s) && t in s.threads && s.threads[t].Joining?
    ensures Held(StepJoin(s, t, s.threads[t].join))
  {
    hide Held, ArcLock;
    match s.threads[t].join
    case Filter(_, _, _) => MoveHeld(s, t, StepJoin(s, t, s.threads[t].join).threads[t]);
    case Loop(j) => JoinLoopHeld(s, t, j);
    case Fetched(j, ref) => if ArcFree(s, ref.arc) { AcquireHeld(s, t, ref, Joining(Check(j, ref))); }
    case Check(j, ref) => JoinCheckHeld(s, t, j, ref);
    case Add(j, ref) => JoinCheckHeld(s, t, j, ref);
    case Clean(_, _, _) => JoinCleanHeld(s, t);
    case CleanHeld(_, _, _, _) => JoinCleanHeld(s, t);
    case JoinLock(_, _) => JoinEntryHeld(s, t);
    case PruneGroup(_) => JoinEntryHeld(s, t);
  }

  lemma MonEntryHeld(s: State, t: ThreadId)
    requires Held(s) && t in s.threads && s.threads[t].Monitoring? && (s.threads[t].monitor.MonLock? || s.threads[t].monitor.MonPrune?)
    ensures Held(StepMonitor(s, t, s.threads[t].monitor))
  {
    hide Held;
    var e, ref := EntryOf(s.threads[t].monitor.slot), s.threads[t].monitor.ref;
    if e !in s.locked {
      if s.threads[t].monitor.MonLock? {
        SameHeld(s, Touch(s, e));
        LockHeld(Touch(s, e), t, e, StepMonitor(s, t, s.threads[t].monitor).threads[t]);
      } else {
        SameHeld(s, Prune(s, e));
        MoveHeld(Prune(s, e), t, Monitoring(MonClean(ref)));
      }
    }
  }

  lemma MonCheckHeld(s: State, t: ThreadId, slot: Slot, ref: Ref)
    requires Held(s) && t in s.threads
    requires s.threads[t] == Monitoring(MonCheck(slot, ref)) || s.threads[t] == Monitoring(MonAdd(slot, ref))
    ensures Held(StepMonitor(s, t, s.threads[t].monitor))
  {
    hide Held, ArcRelease;
    var mid, pc := Monitoring(MonFetched(slot, ref)), Monitoring(MonAfter(slot, ref));
    if s.threads[t].monitor.MonAdd? {
      var s1 := s.(forward := s.forward + {Reg(slot, ref.actor)});
      ReleaseBothHeld(s, s1, t, ref, Slots(s, ref.arc) + {slot}, EntryOf(slot), mid, pc);
    } else if Stopping(s, ref.actor) {
      ReleaseBothHeld(s, s, t, ref, Slots(s, ref.arc), EntryOf(slot), mid, pc);
    } else {
      MoveHeld(s, t, Monitoring(MonAdd(slot, ref)));
    }
  }

  lemma StepMonitorHeld(s: State, t: ThreadId)
    requires Held(s) && t in s.threads && s.threads[t].Monitoring?
    ensures Held(StepMonitor(s, t, s.threads[t].monitor))
  {
    hide Held, ArcLock, ArcRelease, CleanRelations, Ensure, Prune;
    match s.threads[t].monitor
    case MonStart(slot, a) => EnsureHeld(s, a); MoveHeld(Ensure(s, a), t, Monitoring(MonLock(slot, Ref(a, Relations(s, a)))));
    case MonFetched(slot, ref) => if ArcFree(s, ref.arc) { AcquireHeld(s, t, ref, Monitoring(MonCheck(slot, ref))); }
    case MonCheck(slot, ref) => MonCheckHeld(s, t, slot, ref);
    case MonAdd(slot, ref) => MonCheckHeld(s, t, slot, ref);
    case MonAfter(slot, ref) => MoveHeld(s, t, if Stopping(s, ref.actor) then Monitoring(MonPrune(slot, ref)) else Idle);
    case MonClean(ref) => if ArcFree(s, ref.arc) { AcquireHeld(s, t, ref, Monitoring(MonCleanHeld(ref))); }
    case MonCleanHeld(ref) => CleanHeldBy(s, t, ref, Idle);
    case MonLock(_, _) => MonEntryHeld(s, t);
    case MonPrune(_, _) => MonEntryHeld(s, t);
  }

  lemma LeaveLoopHeld(s: State, t: ThreadId, key: Key, todo: seq<Actor>)
    requires Held(s) && t in s.threads && s.threads[t] == Leaving(LeaveLoop(key, todo))
    ensures Held(StepLeave(s, t, LeaveLoop(key, todo)))
  {
    hide Held;
    if todo == [] {
      var s1 := Prune(PruneIndex(s, key), GroupEntry(key));
      SameHeld(s, s1);
      UnlockHeld(s1, t, GroupEntry(key), Idle);
    } else {
      MoveHeld(s, t, StepLeave(s, t, LeaveLoop(key, todo)).threads[t]);
    }
  }

  lemma StepLeaveHeld(s: State, t: ThreadId)
    requires Held(s) && t in s.threads && s.threads[t].Leaving?
    ensures Held(StepLeave(s, t, s.threads[t].leave))
  {
    hide Held, ArcLock, ArcRelease;
    match s.threads[t].leave
    case LeaveLock(key, todo) =>
      if GroupEntry(key) !in s.locked {
        if Occupied(s, GroupEntry(key)) { LockHeld(s, t, GroupEntry(key), Leaving(LeaveLoop(key, todo))); }
        else { MoveHeld(s, t, Idle); }
      }
    case LeaveLoop(key, todo) => LeaveLoopHeld(s, t, key, todo);
    case LeaveFetched(key, ref, todo) =>
      if ArcFree(s, ref.arc) { AcquireHeld(s, t, ref, Leaving(LeaveHeld(key, ref, todo))); }
    case LeaveHeld(key, ref, todo) =>
      ReleaseHeld(s, t, ref, Slots(s, ref.arc) - {Member(key)}, Leaving(LeaveRemove(key, ref.actor, todo)));
    case LeaveRemove(key, a, todo) =>
      var s1 := s.(forward := s.forward - {Reg(Member(key), a)});
      SameHeld(s, s1);
      MoveHeld(s1, t, Leaving(LeaveLoop(key, todo)));
  }

  lemma StepDemonitorHeld(s: State, t: ThreadId)
    requires Held(s) && t in s.threads && s.threads[t].Demonitoring?
    ensures Held(StepDemonitor(s, t, s.threads[t].dem))
  {
    hide Held, ArcLock, ArcRelease, Drop;
    match s.threads[t].dem
    case DemStart(_, _) => MoveHeld(s, t, StepDemonitor(s, t, s.threads[t].dem).threads[t]);
    case DemLock(slot, a, rel) =>
      if EntryOf(slot) !in s.locked {
        if rel.Some? {
          LockHeld(s, t, EntryOf(slot), Demonitoring(DemFetched(slot, Ref(a, rel.value))));
        } else {
          DropOnly(s, Reg(slot, a));
          SameHeld(s, Drop(s, Reg(slot, a)));
          MoveHeld(Drop(s, Reg(slot, a)), t, Idle);
        }
      }
    case DemFetched(slot, ref) => if ArcFree(s, ref.arc) { AcquireHeld(s, t, ref, Demonitoring(DemHeld(slot, ref))); }
    case DemHeld(slot, ref) =>
      DropOnly(s, Reg(slot, ref.actor));
      ReleaseBothHeld(s, Drop(s, Reg(slot, ref.actor)), t, ref, Slots(s, ref.arc) - {slot}, EntryOf(slot),
                      Demonitoring(DemFetched(slot, ref)), Idle);
  }

  /** A shutdown moves. */
  lemma StopMoves(s: State, a: Actor, pc: StopPc)
    requires Held(s) && (a in s.stops ==> StopHeld(s.stops[a]).None?)
    ensures Held(Stop(s, a, pc))
  {
    forall x | 0 <= x < |s.arcs| && s.arcs[x].holder.Some? ensures Holds(s.threads, Stop(s, a, pc).stops, s.arcs[x].holder.value, x) {
      assert Holds(s.threads, s.stops, s.arcs[x].holder.value, x);
    }
  }

  lemma StopAcquires(s: State, a: Actor, x: ArcId, pc: StopPc)
    requires Held(s) && a in s.stops && StopHeld(s.stops[a]).None? && StopHeld(pc) == Some(x)
    ensures Held(Stop(ArcLock(s, x, S(a)), a, pc))
  {
    var s' := Stop(ArcLock(s, x, S(a)), a, pc);
    forall y | 0 <= y < |s'.arcs| && s'.arcs[y].holder.Some? ensures Holds(s'.threads, s'.stops, s'.arcs[y].holder.value, y) {
      if y != x { assert Holds(s.threads, s.stops, s.arcs[y].holder.value, y); }
    }
  }

  lemma StopReleases(s: State, a: Actor, x: ArcId, slots: set<Slot>, pc: StopPc)
    requires Held(s) && a in s.stops && StopHeld(s.stops[a]) == Some(x)
    ensures Held(Stop(ArcRelease(s, x, slots), a, pc))
  {
    var s' := Stop(ArcRelease(s, x, slots), a, pc);
    forall y | 0 <= y < |s'.arcs| && s'.arcs[y].holder.Some? ensures Holds(s'.threads, s'.stops, s'.arcs[y].holder.value, y) {
      if y != x { assert Holds(s.threads, s.stops, s.arcs[y].holder.value, y); }
    }
  }

  lemma DropsHeld(s: State, a: Actor, pick: Slot)
    requires Held(s) && a in s.stops && (s.stops[a].DropMonitors? || s.stops[a].DropMembers?)
    ensures Held(StepStop(s, a, pick))
  {
    hide Held, Drop, Prune, PruneIndex;
    DropOnly(s, Reg(pick, a));
    DropMemberOnly(s, Reg(pick, a));
    var s' := StepStop(s, a, pick);
    var s1 := s.(forward := s'.forward, entries := s'.entries, index := s'.index);
    SameHeld(s, s1);
    StopMoves(s1, a, s'.stops[a]);
    assert Stop(s1, a, s'.stops[a]) == s' || s' == s;
  }

  lemma CleanDoHeld(s: State, a: Actor, x: ArcId)
    requires Held(s) && a in s.stops && s.stops[a] == CleanDo(x)
    ensures Held(StepStop(s, a, Member(Key("", ""))))
  {
    hide Held;
    StopReleases(s, a, x, Slots(s, x), Done);
    SameHeld(Stop(ArcRelease(s, x, Slots(s, x)), a, Done), Stop(CleanRelations(s, Ref(a, x)), a, Done));
  }

  lemma StepStopHeld(s: State, a: Actor, pick: Slot)
    requires Held(s) && a in s.stops
    ensures Held(StepStop(s, a, pick))
  {
    hide Held, ArcLock, ArcRelease, CleanRelations, Drop, Prune, PruneIndex;
    match s.stops[a]
    case GetMonitors => StopMoves(s, a, StepStop(s, a, pick).stops[a]);
    case GetMembers => StopMoves(s, a, StepStop(s, a, pick).stops[a]);
    case LockMonitors(x) => if ArcFree(s, x) { StopAcquires(s, a, x, TakeMonitors(x)); }
    case LockMembers(x) => if ArcFree(s, x) { StopAcquires(s, a, x, TakeMembers(x)); }
    case CleanLock(x) => if ArcFree(s, x) { StopAcquires(s, a, x, CleanDo(x)); }
    case TakeMonitors(x) =>
      var taken := set slot | slot in Slots(s, x) && Monitors(slot);
      StopReleases(s, a, x, Slots(s, x) - taken, DropMonitors(taken));
    case TakeMembers(x) =>
      var taken := set slot | slot in Slots(s, x) && !Monitors(slot);
      StopReleases(s, a, x, Slots(s, x) - taken, DropMembers(x, taken));
    case CleanDo(x) => CleanDoHeld(s, a, x);
    case DropMonitors(_) => DropsHeld(s, a, pick);
    case DropMembers(_, _) => DropsHeld(s, a, pick);
    case Done =>
  }

  lemma NextHeld(s: State, e: Event)
    requires Held(s)
    ensures Held(Next(s, e))
  {
    hide Held;
    match e
    case Thread(t, choice) =>
      if t in s.threads {
        match s.threads[t]
        case Idle => if StepThread(s, t, choice) != s { MoveHeld(s, t, StepThread(s, t, choice).threads[t]); }
        case Joining(_) => StepJoinHeld(s, t);
        case Monitoring(_) => StepMonitorHeld(s, t);
        case Leaving(_) => StepLeaveHeld(s, t);
        case Demonitoring(_) => StepDemonitorHeld(s, t);
      }
    case Publish(a) => if a !in s.stops { StopMoves(s, a, GetMonitors); }
    case Shutdown(a, pick) => if a in s.stops { StepStopHeld(s, a, pick); }
  }

  lemma {:induction false} RunHeld(s: State, events: seq<Event>)
    requires Held(s)
    ensures Held(Run(s, events))
    decreases |events|
  {
    hide Held;
    if events != [] {
      NextHeld(s, events[0]);
      RunHeld(Next(s, events[0]), events[1..]);
    }
  }

  lemma InitHeld(threads: set<ThreadId>)
    ensures Held(Init(threads))
  {
  }

  // ------------------------------------------------------------------ somebody can move

  /** Nothing is in flight. */
  predicate Finished(s: State) { Quiet(s) && forall a :: a in s.stops ==> s.stops[a].Done? }

  /** The entry or the relations the thread waits for. */
  predicate Waits(s: State, pc: Pc)
  {
    match pc
    case Joining(JoinLock(key, _)) => GroupEntry(key) in s.locked
    case Joining(PruneGroup(key)) => GroupEntry(key) in s.locked
    case Joining(Fetched(_, ref)) => !ArcFree(s, ref.arc)
    case Joining(Clean(_, _, stopped)) => stopped != [] && !ArcFree(s, stopped[0].arc)
    case Monitoring(MonLock(slot, _)) => EntryOf(slot) in s.locked
    case Monitoring(MonPrune(slot, _)) => EntryOf(slot) in s.locked
    case Monitoring(MonFetched(_, ref)) => !ArcFree(s, ref.arc)
    case Monitoring(MonClean(ref)) => !ArcFree(s, ref.arc)
    case Leaving(LeaveLock(key, _)) => GroupEntry(key) in s.locked
    case Leaving(LeaveFetched(_, ref, _)) => !ArcFree(s, ref.arc)
    case Demonitoring(DemLock(slot, _, _)) => EntryOf(slot) in s.locked
    case Demonitoring(DemFetched(_, ref)) => !ArcFree(s, ref.arc)
    case _ => false
  }

  predicate StopWaits(s: State, pc: StopPc)
  {
    match pc
    case LockMonitors(x) => !ArcFree(s, x)
    case LockMembers(x) => !ArcFree(s, x)
    case CleanLock(x) => !ArcFree(s, x)
    case DropMonitors(slots) => slots != {} && forall slot :: slot in slots ==> EntryOf(slot) in s.locked
    case DropMembers(_, slots) => slots != {} && forall slot :: slot in slots ==> EntryOf(slot) in s.locked
    case _ => false
  }

  /** A process in flight that waits for nothing. */
  predicate Ready(s: State, p: Proc)
  {
    match p
    case T(t) => t in s.threads && !s.threads[t].Idle? && !Waits(s, s.threads[t])
    case S(a) => a in s.stops && !s.stops[a].Done? && !StopWaits(s, s.stops[a])
  }

  /** Whichever drained relationship a shutdown removes next, its entry is free. */
  predicate Unblocked(s: State, p: Proc)
  {
    p.S? && p.a in s.stops ==> forall slot :: slot in Drained(s.stops[p.a]) ==> EntryOf(slot) !in s.locked
  }

  /** A process that holds relations waits for nothing. */
  lemma HolderIsReady(s: State, x: ArcId)
    requires Held(s) && x < |s.arcs| && s.arcs[x].holder.Some?
    ensures Ready(s, s.arcs[x].holder.value) && Unblocked(s, s.arcs[x].holder.value)
  {
    assert Holds(s.threads, s.stops, s.arcs[x].holder.value, x);
  }

  /** A thread that holds an entry waits at most for relations. */
  lemma EntryHolderIsReady(s: State, e: Entry)
    requires Held(s) && Base(s) && e in s.locked
    requires forall x :: 0 <= x < |s.arcs| ==> s.arcs[x].holder.None?
    ensures Ready(s, T(s.locked[e])) && Unblocked(s, T(s.locked[e]))
  {
    hide Base;
    ThreadLocated(s, s.locked[e]);
    ReferredIsFree(s, s.threads[s.locked[e]]);
  }

  lemma ReferredIsFree(s: State, pc: Pc)
    requires forall x :: 0 <= x < |s.arcs| ==> s.arcs[x].holder.None?
    requires forall ref :: Refers(pc, ref) ==> ValidRef(s.arcs, ref)
    ensures forall ref :: Refers(pc, ref) ==> ArcFree(s, ref.arc)
  {
  }

  /** With nothing locked everybody can move. */
  lemma UnlockedIsReady(s: State, p: Proc)
    requires Base(s) && s.locked == map[]
    requires forall x :: 0 <= x < |s.arcs| ==> s.arcs[x].holder.None?
    requires match p case T(t) => t in s.threads && !s.threads[t].Idle? case S(a) => a in s.stops && !s.stops[a].Done?
    ensures Ready(s, p) && Unblocked(s, p)
  {
    hide Base;
    match p
    case T(t) =>
      ThreadLocated(s, t);
      ReferredIsFree(s, s.threads[t]);
      if s.threads[t].Joining? && s.threads[t].join.Clean? && s.threads[t].join.stopped != [] {
        assert Refers(s.threads[t], s.threads[t].join.stopped[0]);
      }
    case S(a) =>
      ShutdownLocated(s, a);
      NotAllLocked(s, s.stops[a]);
  }

  lemma NotAllLocked(s: State, pc: StopPc)
    requires s.locked == map[]
    ensures Drained(pc) != {} ==> exists slot :: slot in Drained(pc) && EntryOf(slot) !in s.locked
  {
    if Drained(pc) != {} { var slot :| slot in Drained(pc); assert EntryOf(slot) !in s.locked; }
  }

  /** The lock order at work: a waiting process waits for the holder of an entry, who waits
      at most for the holder of relations, who waits for nobody. */
  lemma SomebodyIsReady(s: State) returns (p: Proc)
    requires Held(s) && Base(s) && !Finished(s)
    ensures Ready(s, p) && Unblocked(s, p)
  {
    hide Base, Held, Ready, Unblocked;
    if x :| 0 <= x < |s.arcs| && s.arcs[x].holder.Some? {
      HolderIsReady(s, x);
      p := s.arcs[x].holder.value;
    } else if e :| e in s.locked {
      EntryHolderIsReady(s, e);
      p := T(s.locked[e]);
    } else if t :| t in s.threads && !s.threads[t].Idle? {
      p := T(t);
      UnlockedIsReady(s, p);
    } else {
      var a :| a in s.stops && !s.stops[a].Done?;
      p := S(a);
      UnlockedIsReady(s, p);
    }
  }

  // ------------------------------------------------------------------ everybody can finish

  /** A bound on the steps a thread still has to take. */
  function Work(pc: Pc): nat
  {
    match pc
    case Idle => 0
    case Joining(Filter(_, todo, kept)) => 9 * |todo| + 8 * |kept| + 5
    case Joining(JoinLock(_, kept)) => 8 * |kept| + 4
    case Joining(Loop(j)) => 8 * |j.todo| + 3 * |j.stopped| + 3
    case Joining(Fetched(j, _)) => 8 * |j.todo| + 3 * |j.stopped| + 10
    case Joining(Check(j, _)) => 8 * |j.todo| + 3 * |j.stopped| + 9
    case Joining(Add(j, _)) => 8 * |j.todo| + 3 * |j.stopped| + 8
    case Joining(Clean(_, _, stopped)) => 3 * |stopped| + 2
    case Joining(CleanHeld(_, _, _, stopped)) => 3 * |stopped| + 4
    case Joining(PruneGroup(_)) => 1
    case Monitoring(MonStart(_, _)) => 9
    case Monitoring(MonLock(_, _)) => 8
    case Monitoring(MonFetched(_, _)) => 7
    case Monitoring(MonCheck(_, _)) => 6
    case Monitoring(MonAdd(_, _)) => 5
    case Monitoring(MonAfter(_, _)) => 4
    case Monitoring(MonPrune(_, _)) => 3
    case Monitoring(MonClean(_)) => 2
    case Monitoring(MonCleanHeld(_)) => 1
    case Leaving(LeaveLock(_, todo)) => 4 * |todo| + 2
    case Leaving(LeaveLoop(_, todo)) => 4 * |todo| + 1
    case Leaving(LeaveFetched(_, _, todo)) => 4 * |todo| + 4
    case Leaving(LeaveHeld(_, _, todo)) => 4 * |todo| + 3
    case Leaving(LeaveRemove(_, _, todo)) => 4 * |todo| + 2
    case Demonitoring(DemStart(_, _)) => 4
    case Demonitoring(DemLock(_, _, _)) => 3
    case Demonitoring(DemFetched(_, _)) => 2
    case Demonitoring(DemHeld(_, _)) => 1
  }

  /** The stages a shutdown still has to go through. */
  function Stages(pc: StopPc): nat
  {
    match pc
    case GetMonitors => 10
    case LockMonitors(_) => 9
    case TakeMonitors(_) => 8
    case DropMonitors(_) => 7
    case GetMembers => 6
    case LockMembers(_) => 5
    case TakeMembers(_) => 4
    case DropMembers(_, _) => 3
    case CleanLock(_) => 2
    case CleanDo(_) => 1
    case Done => 0
  }

  /** Only thread t has moved. */
  predicate Only(s: State, s': State, t: ThreadId)
  {
    t in s.threads && t in s'.threads && s'.threads == s.threads[t := s'.threads[t]] && s'.stops == s.stops
  }

  lemma JoinLoopWorks(s: State, t: ThreadId, j: Join)
    requires t in s.threads && s.threads[t] == Joining(Loop(j))
    ensures Work(StepJoin(s, t, Loop(j)).threads[t]) < Work(s.threads[t])
  {
    hide Ensure, AddMembers, Unlock;
  }

  lemma JoinCheckWorks(s: State, t: ThreadId, j: Join, ref: Ref)
    requires t in s.threads && s.threads[t] == Joining(Check(j, ref))
    ensures Work(StepJoin(s, t, Check(j, ref)).threads[t]) < Work(s.threads[t])
  {
    hide ArcRelease;
  }

  lemma JoinWorks(s: State, t: ThreadId)
    requires t in s.threads && s.threads[t].Joining? && !Waits(s, s.threads[t])
    ensures Work(StepJoin(s, t, s.threads[t].join).threads[t]) < Work(s.threads[t])
  {
    hide ArcLock, ArcRelease, Ensure, CleanRelations, Prune, AddMembers, Lock, Unlock, Touch;
    match s.threads[t].join
    case Loop(j) => JoinLoopWorks(s, t, j);
    case Check(j, ref) => JoinCheckWorks(s, t, j, ref);
    case _ =>
  }

  /** The relations and the entries change, nobody moves. */
  lemma RelationsFrame(s: State, ref: Ref, p: Proc, slots: set<Slot>)
    ensures ArcLock(s, ref.arc, p).threads == s.threads && ArcLock(s, ref.arc, p).stops == s.stops
    ensures ArcRelease(s, ref.arc, slots).threads == s.threads && ArcRelease(s, ref.arc, slots).stops == s.stops
    ensures CleanRelations(s, ref).threads == s.threads && CleanRelations(s, ref).stops == s.stops
    ensures Ensure(s, ref.actor).threads == s.threads && Ensure(s, ref.actor).stops == s.stops
  {
  }

  lemma PruneFrame(s: State, e: Entry)
    ensures Prune(s, e).threads == s.threads && Prune(s, e).stops == s.stops
  {
  }

  lemma JoinFrames(s: State, t: ThreadId)
    requires t in s.threads && s.threads[t].Joining? && !Waits(s, s.threads[t])
    ensures Only(s, StepJoin(s, t, s.threads[t].join), t)
  {
    hide ArcLock, ArcRelease, Ensure, CleanRelations, Prune, Claimed;
    match s.threads[t].join
    case Loop(j) => if j.todo != [] { RelationsFrame(s, Ref(j.todo[0], 0), T(t), {}); }
    case Fetched(_, ref) => RelationsFrame(s, ref, T(t), {});
    case Check(_, ref) => RelationsFrame(s, ref, T(t), Slots(s, ref.arc));
    case Add(j, ref) => RelationsFrame(s, ref, T(t), Slots(s, ref.arc) + {Member(j.key)});
    case Clean(_, _, stopped) => if stopped != [] { RelationsFrame(s, stopped[0], T(t), {}); }
    case CleanHeld(_, _, ref, _) => RelationsFrame(s, ref, T(t), {});
    case PruneGroup(key) => PruneFrame(s, GroupEntry(key));
    case _ =>
  }

  lemma MonitorWorks(s: State, t: ThreadId)
    requires t in s.threads && s.threads[t].Monitoring? && !Waits(s, s.threads[t])
    ensures Work(StepMonitor(s, t, s.threads[t].monitor).threads[t]) < Work(s.threads[t])
  {
    hide ArcLock, ArcRelease, Ensure, CleanRelations, Prune, Lock, Unlock, Touch;
  }

  lemma MonitorFrames(s: State, t: ThreadId)
    requires t in s.threads && s.threads[t].Monitoring? && !Waits(s, s.threads[t])
    ensures Only(s, StepMonitor(s, t, s.threads[t].monitor), t)
  {
    hide ArcLock, ArcRelease, Ensure, CleanRelations, Prune;
    match s.threads[t].monitor
    case MonStart(_, a) => RelationsFrame(s, Ref(a, 0), T(t), {});
    case MonFetched(_, ref) => RelationsFrame(s, ref, T(t), {});
    case MonCheck(_, ref) => RelationsFrame(s, ref, T(t), Slots(s, ref.arc));
    case MonAdd(slot, ref) =>
      RelationsFrame(s.(forward := s.forward + {Reg(slot, ref.actor)}), ref, T(t), Slots(s, ref.arc) + {slot});
    case MonPrune(slot, _) => PruneFrame(s, EntryOf(slot));
    case MonClean(ref) => RelationsFrame(s, ref, T(t), {});
    case MonCleanHeld(ref) => RelationsFrame(s, ref, T(t), {});
    case _ =>
  }

  lemma LeaveWorks(s: State, t: ThreadId)
    requires t in s.threads && s.threads[t].Leaving? && !Waits(s, s.threads[t])
    ensures Work(StepLeave(s, t, s.threads[t].leave).threads[t]) < Work(s.threads[t])
  {
    hide ArcLock, ArcRelease, Prune, PruneIndex, Lock, Unlock;
  }

  lemma LeaveFrames(s: State, t: ThreadId)
    requires t in s.threads && s.threads[t].Leaving? && !Waits(s, s.threads[t])
    ensures Only(s, StepLeave(s, t, s.threads[t].leave), t)
  {
    hide ArcLock, ArcRelease, Prune, PruneIndex;
    match s.threads[t].leave
    case LeaveLoop(key, _) => PruneFrame(PruneIndex(s, key), GroupEntry(key)); IndexFrame(s, key);
    case LeaveFetched(_, ref, _) => RelationsFrame(s, ref, T(t), {});
    case LeaveHeld(key, ref, _) => RelationsFrame(s, ref, T(t), Slots(s, ref.arc) - {Member(key)});
    case _ =>
  }

  lemma IndexFrame(s: State, key: Key)
    ensures PruneIndex(s, key).threads == s.threads && PruneIndex(s, key).stops == s.stops
  {
  }

  lemma DemonitorWorks(s: State, t: ThreadId)
    requires t in s.threads && s.threads[t].Demonitoring? && !Waits(s, s.threads[t])
    ensures Work(StepDemonitor(s, t, s.threads[t].dem).threads[t]) < Work(s.threads[t])
  {
    hide ArcLock, ArcRelease, Drop, Lock, Unlock;
  }

  lemma DemonitorFrames(s: State, t: ThreadId)
    requires t in s.threads && s.threads[t].Demonitoring? && !Waits(s, s.threads[t])
    ensures Only(s, StepDemonitor(s, t, s.threads[t].dem), t)
  {
    hide ArcLock, ArcRelease, Drop;
    match s.threads[t].dem
    case DemLock(slot, a, _) => DropOnly(s, Reg(slot, a));
    case DemFetched(_, ref) => RelationsFrame(s, ref, T(t), {});
    case DemHeld(slot, ref) =>
      DropOnly(s, Reg(slot, ref.actor));
      RelationsFrame(Drop(s, Reg(slot, ref.actor)), ref, T(t), Slots(s, ref.arc) - {slot});
    case _ =>
  }

  lemma ThreadAdvances(s: State, t: ThreadId)
    requires Ready(s, T(t))
    ensures var s' := Next(s, Thread(t, Proceed));
            Only(s, s', t) && Work(s'.threads[t]) < Work(s.threads[t])
  {
    hide Waits, Only, Work, StepJoin, StepMonitor, StepLeave, StepDemonitor;
    match s.threads[t]
    case Joining(_) => JoinWorks(s, t); JoinFrames(s, t);
    case Monitoring(_) => MonitorWorks(s, t); MonitorFrames(s, t);
    case Leaving(_) => LeaveWorks(s, t); LeaveFrames(s, t);
    case Demonitoring(_) => DemonitorWorks(s, t); DemonitorFrames(s, t);
  }

  /** Only the shutdown of an actor has moved, and it is nearer to its end. */
  predicate StopAdvanced(s: State, s': State, a: Actor)
  {
    && a in s.stops && a in s'.stops && s'.stops == s.stops[a := s'.stops[a]] && s'.threads == s.threads
    && (|| Stages(s'.stops[a]) < Stages(s.stops[a])
        || (Stages(s'.stops[a]) == Stages(s.stops[a]) && |Drained(s'.stops[a])| < |Drained(s.stops[a])|))
  }

  lemma ShutdownAdvances(s: State, a: Actor) returns (pick: Slot)
    requires Ready(s, S(a))
    ensures StopAdvanced(s, Next(s, Shutdown(a, pick)), a)
  {
    if Drained(s.stops[a]) != {} {
      pick :| pick in Drained(s.stops[a]) && EntryOf(pick) !in s.locked;
      DropAdvances(s, a, pick);
    } else {
      pick := Member(Key("", ""));
      StageAdvances(s, a, pick);
    }
  }

  lemma DropAdvances(s: State, a: Actor, pick: Slot)
    requires a in s.stops && pick in Drained(s.stops[a]) && EntryOf(pick) !in s.locked
    ensures StopAdvanced(s, StepStop(s, a, pick), a)
  {
    hide Drop, Prune, PruneIndex;
    DropOnly(s, Reg(pick, a));
    DropMemberOnly(s, Reg(pick, a));
  }

  lemma StageAdvances(s: State, a: Actor, pick: Slot)
    requires a in s.stops && !s.stops[a].Done? && !StopWaits(s, s.stops[a]) && Drained(s.stops[a]) == {}
    ensures StopAdvanced(s, StepStop(s, a, pick), a)
  {
    hide Drop, Prune, PruneIndex;
  }

  /** The sum of a map's values. */
  ghost function Total(m: map<nat, nat>): nat
    decreases |m|
  {
    if m == map[] then 0 else var k :| k in m; Less(m, k); m[k] + Total(m - {k})
  }

  lemma Less(m: map<nat, nat>, k: nat)
    requires k in m
    ensures |m - {k}| < |m|
  {
    assert (m - {k}).Keys == m.Keys - {k};
    assert |(m - {k}).Keys| == |m.Keys| - 1;
  }

  lemma {:induction false} TotalSplits(m: map<nat, nat>, k: nat)
    requires k in m
    ensures Total(m) == m[k] + Total(m - {k})
    decreases |m|
  {
    var j :| j in m && Total(m) == m[j] + Total(m - {j});
    if j != k {
      Less(m, j);
      Less(m, k);
      TotalSplits(m - {j}, k);
      TotalSplits(m - {k}, j);
      assert m - {j} - {k} == m - {k} - {j};
    }
  }

  lemma TotalUpdate(m: map<nat, nat>, k: nat, v: nat)
    requires k in m
    ensures Total(m[k := v]) == Total(m) - m[k] + v
  {
    TotalSplits(m, k);
    TotalSplits(m[k := v], k);
    assert m[k := v] - {k} == m - {k};
  }

  function WorkOf(threads: map<ThreadId, Pc>): map<nat, nat> { map t | t in threads :: Work(threads[t]) }
  function StagesOf(stops: map<Actor, StopPc>): map<nat, nat> { map a | a in stops :: Stages(stops[a]) }
  function SlotsOf(stops: map<Actor, StopPc>): map<nat, nat> { map a | a in stops :: |Drained(stops[a])| }

  ghost function ThreadWork(s: State): nat { Total(WorkOf(s.threads)) }
  ghost function StopStages(s: State): nat { Total(StagesOf(s.stops)) }
  ghost function StopSlots(s: State): nat { Total(SlotsOf(s.stops)) }

  lemma AdvancedWork(s: State, s': State, t: ThreadId)
    requires Only(s, s', t) && Work(s'.threads[t]) < Work(s.threads[t])
    ensures ThreadWork(s') < ThreadWork(s) && s'.stops == s.stops
  {
    hide Total, Work;
    assert WorkOf(s'.threads) == WorkOf(s.threads)[t := Work(s'.threads[t])];
    TotalUpdate(WorkOf(s.threads), t, Work(s'.threads[t]));
  }

  lemma StopAdvancedWork(s: State, s': State, a: Actor)
    requires StopAdvanced(s, s', a)
    ensures s'.threads == s.threads
    ensures StopStages(s') < StopStages(s) || (StopStages(s') == StopStages(s) && StopSlots(s') < StopSlots(s))
  {
    hide Total, Stages, Drained;
    assert StagesOf(s'.stops) == StagesOf(s.stops)[a := Stages(s'.stops[a])];
    assert SlotsOf(s'.stops) == SlotsOf(s.stops)[a := |Drained(s'.stops[a])|];
    TotalUpdate(StagesOf(s.stops), a, Stages(s'.stops[a]));
    TotalUpdate(SlotsOf(s.stops), a, |Drained(s'.stops[a])|);
  }

  /** A step of an operation or shutdown that has already begun. */
  predicate Goes(e: Event) { (e.Thread? && e.choice.Proceed?) || e.Shutdown? }

  /** What is in flight is nearer to its end. */
  ghost predicate Lower(s': State, s: State)
  {
    || ThreadWork(s') < ThreadWork(s)
    || (ThreadWork(s') == ThreadWork(s) && StopStages(s') < StopStages(s))
    || (ThreadWork(s') == ThreadWork(s) && StopStages(s') == StopStages(s) && StopSlots(s') < StopSlots(s))
  }

  /** The next step of a process in flight; it takes that process nearer to its end. */
  lemma SomebodyMoves(s: State) returns (e: Event)
    requires Held(s) && Base(s) && !Finished(s)
    ensures Goes(e)
    ensures Next(s, e).stops.Keys == s.stops.Keys && Lower(Next(s, e), s)
  {
    hide Base, Held, Finished, Ready, Next, Total;
    var p := SomebodyIsReady(s);
    match p
    case T(t) =>
      e := Thread(t, Proceed);
      ThreadAdvances(s, t);
      AdvancedWork(s, Next(s, e), t);
    case S(a) =>
      var pick := ShutdownAdvances(s, a);
      e := Shutdown(a, pick);
      StopAdvancedWork(s, Next(s, e), a);
  }

  lemma {:induction false} CanFinish(s: State) returns (more: seq<Event>)
    requires Inv(s) && Held(s)
    ensures Finished(Run(s, more)) && Run(s, more).stops.Keys == s.stops.Keys
    decreases ThreadWork(s), StopStages(s), StopSlots(s)
  {
    hide CleanInv, Base, Held, Finished, Next, ThreadWork, StopStages, StopSlots;
    if Finished(s) {
      more := [];
    } else {
      var e := SomebodyMoves(s);
      NextInv(s, e);
      NextHeld(s, e);
      var rest := CanFinish(Next(s, e));
      more := [e] + rest;
      assert more[0] == e && more[1..] == rest;
    }
  }

  /** No deadlock: in every reachable state in which an operation or a shutdown is in flight,
      a step of one of them changes the state. */
  lemma NoDeadlock(threads: set<ThreadId>, events: seq<Event>) returns (e: Event)
    requires !Finished(Run(Init(threads), events))
    ensures Goes(e)
    ensures var s := Run(Init(threads), events);
            Next(s, e) != s
  {
    hide CleanInv, Base, Finished, Next;
    InitInv(threads);
    RunInv(Init(threads), events);
    InitHeld(threads);
    RunHeld(Init(threads), events);
    e := SomebodyMoves(Run(Init(threads), events));
  }

  /** Nothing is left of the actors that were stopping, and the memberships agree. */
  ghost predicate Tidy(s: State)
  {
    && (forall a, r :: a in s.stops && r in s.forward ==> r.actor != a)
    && (forall a :: a in s.stops ==> a !in s.relations)
    && (forall r: Reg :: r.slot.Member? ==> (r in s.forward <==> Lists(s, r)))
  }

  lemma FinishedIsTidy(threads: set<ThreadId>, events: seq<Event>)
    requires Finished(Run(Init(threads), events))
    ensures Tidy(Run(Init(threads), events))
  {
    hide Run, Agrees;
    var s := Run(Init(threads), events);
    forall a | a in s.stops ensures a !in s.relations && forall r :: r in s.forward ==> r.actor != a {
      StoppedActorLeavesNothing(threads, events, a);
    }
    MembersAgree(threads, events);
    AgreesAtRest(s);
  }

  /** From every reachable state everything in flight can be brought to its end; then
      nothing is left of the actors that were stopping, and the memberships agree. */
  lemma EverythingCanFinish(threads: set<ThreadId>, events: seq<Event>) returns (more: seq<Event>)
    ensures var s, s' := Run(Init(threads), events), Run(Init(threads), events + more);
            Finished(s') && s'.stops.Keys == s.stops.Keys && Tidy(s')
  {
    hide Inv, Held, Run, Tidy, Finished;
    InitInv(threads);
    RunInv(Init(threads), events);
    InitHeld(threads);
    RunHeld(Init(threads), events);
    more := CanFinish(Run(Init(threads), events));
    RunAppend(Init(threads), events, more);
    FinishedIsTidy(threads, events + more);
  }

  lemma AgreesAtRest(s: State)
    requires Finished(s) && Agrees(s, true)
    ensures forall r: Reg :: r.slot.Member? ==> (r in s.forward <==> Lists(s, r))
  {
  }
}
