/**
 Every step of the process-group protocol keeps the invariant; what follows for every run.
 */
module PgLocksSafety {
  import opened Options
  import opened PgNames
  import opened PgLocks
  import opened PgLocksInvariant

  // ------------------------------------------------------------------ composed updates

  /** The relations a thread holds are held by nobody else once it has moved on. */
  lemma Relinquished(s: State, t: ThreadId, pc: Pc)
    requires Base(s) && t in s.threads && HeldRef(s.threads[t]).Some? && HeldRef(pc).None?
    ensures Unheld(At(s, t, pc), HeldRef(s.threads[t]).value.arc)
  {
  }

  lemma ReleaseBase(s: State, x: ArcId, slots: set<Slot>)
    requires Base(s) && x < |s.arcs| && Unheld(s, x)
    requires Base(SetArc(s, x, s.arcs[x].(slots := slots)))
    ensures Base(ArcRelease(s, x, slots))
  {
    hide Base;
    var s1 := SetArc(s, x, s.arcs[x].(slots := slots));
    HolderBase(s1, x, None);
    assert SetArc(s1, x, s1.arcs[x].(holder := None)) == ArcRelease(s, x, slots);
  }

  /** Releasing relations without having changed them. */
  lemma ReleaseSame(s: State, x: ArcId)
    requires Base(s) && x < |s.arcs| && Unheld(s, x)
    ensures Base(ArcRelease(s, x, Slots(s, x)))
  {
    hide Base;
    HolderBase(s, x, None);
    assert SetArc(s, x, s.arcs[x].(holder := None)) == ArcRelease(s, x, Slots(s, x));
  }

  lemma AcquireBase(s: State, x: ArcId, p: Proc)
    requires Base(s) && ArcFree(s, x)
    ensures Base(ArcLock(s, x, p)) && Unheld(s, x)
    ensures forall ref :: ValidRef(s.arcs, ref) ==> ValidRef(ArcLock(s, x, p).arcs, ref)
    ensures forall r :: Known(s.arcs, s.relations, s.stops, r) ==> Known(ArcLock(s, x, p).arcs, s.relations, s.stops, r)
  {
    HolderBase(s, x, Some(p));
  }

  /** Moving one thread keeps the removal lists if what it drops from its own list is on
      the shutdown's. */
  lemma MoveClean(s: State, t: ThreadId, pc: Pc)
    requires CleanInv(s.relations, s.threads, s.stops) && t in s.threads
    requires forall a :: a in s.relations && a in s.stops && WillClean(s.threads[t], Ref(a, s.relations[a])) ==>
               WillClean(pc, Ref(a, s.relations[a])) || StopWillClean(s.stops[a], s.relations[a])
    ensures CleanInv(s.relations, At(s, t, pc).threads, s.stops)
  {
    var threads := At(s, t, pc).threads;
    forall a | a in s.relations && a in s.stops && !StopWillClean(s.stops[a], s.relations[a])
      ensures exists u :: u in threads && WillClean(threads[u], Ref(a, s.relations[a]))
    {
      var u :| u in s.threads && WillClean(s.threads[u], Ref(a, s.relations[a]));
      assert WillClean(threads[u], Ref(a, s.relations[a]));
    }
  }

  /** A thread acquires the mutex of relations it refers to. */
  lemma AcquireInv(s: State, t: ThreadId, ref: Ref, pc: Pc)
    requires Inv(s) && t in s.threads && ArcFree(s, ref.arc)
    requires HeldRef(pc) == Some(ref) && Adding(pc).None? && Sensible(pc, s.stops)
    requires HeldEntry(pc) == HeldEntry(s.threads[t]) && Defaulted(pc) == Defaulted(s.threads[t])
    requires forall r :: Refers(pc, r) ==> Refers(s.threads[t], r)
    requires forall r :: Claims(pc, r) ==> Claims(s.threads[t], r)
    requires forall r :: !Removes(s.threads[t], r)
    requires forall r :: WillClean(s.threads[t], r) ==> WillClean(pc, r)
    ensures Inv(At(ArcLock(s, ref.arc, T(t)), t, pc))
  {
    hide Base;
    ThreadLocated(s, t);
    AcquireBase(s, ref.arc, T(t));
    MoveBase(ArcLock(s, ref.arc, T(t)), t, pc);
    MoveClean(s, t, pc);
  }

  /** A thread that picks up relations, creating them if need be. */
  lemma EnsureInv(s: State, t: ThreadId, a: Actor, pc: Pc)
    requires Inv(s) && t in s.threads
    requires WillClean(pc, Ref(a, Relations(s, a)))
    requires forall ref :: WillClean(s.threads[t], ref) ==> WillClean(pc, ref)
    requires Base(At(Ensure(s, a), t, pc))
    ensures Inv(At(Ensure(s, a), t, pc))
  {
    hide Base;
    var s' := At(Ensure(s, a), t, pc);
    forall b | b in s'.relations && b in s'.stops && !StopWillClean(s'.stops[b], s'.relations[b])
      ensures exists u :: u in s'.threads && WillClean(s'.threads[u], Ref(b, s'.relations[b]))
    {
      if b == a {
        assert WillClean(s'.threads[t], Ref(b, s'.relations[b]));
      } else {
        var u :| u in s.threads && WillClean(s.threads[u], Ref(b, s.relations[b]));
        assert WillClean(s'.threads[u], Ref(b, s'.relations[b]));
      }
    }
  }

  /** The end of `remove_empty_actor_relations`. */
  lemma CleanBase(s: State, ref: Ref)
    requires Base(s) && ValidRef(s.arcs, ref) && Unheld(s, ref.arc) && ref.actor in s.stops
    requires forall t :: t in s.threads && Adding(s.threads[t]).Some? ==> Adding(s.threads[t]).value.arc != ref.arc
    ensures Base(CleanRelations(s, ref))
  {
    ReleaseSame(s, ref.arc);
    var s1 := ArcRelease(s, ref.arc, Slots(s, ref.arc));
    if Slots(s, ref.arc) == {} && ref.actor in s.relations && s.relations[ref.actor] == ref.arc {
      ForgetBase(s1, ref.actor);
    }
  }

  /** Once a thread or a shutdown has cleaned relations up, they are not in the reverse
      index, unless the shutdown will come to them. */
  lemma CleanedUp(s: State, ref: Ref)
    requires Base(s) && ValidRef(s.arcs, ref) && ref.actor in s.stops
    ensures var s' := CleanRelations(s, ref);
            && s'.threads == s.threads && s'.stops == s.stops && s'.forward == s.forward
            && (forall a :: a in s'.relations ==> a in s.relations && s'.relations[a] == s.relations[a])
            && (ref.actor in s'.relations && s'.relations[ref.actor] == ref.arc ==> StopWillClean(s.stops[ref.actor], ref.arc))
  {
    var s' := CleanRelations(s, ref);
    if ref.actor in s'.relations && s'.relations[ref.actor] == ref.arc {
      NonEmptyIsOwed(s, ref);
    }
  }

  // ------------------------------------------------------------------ join_scoped

  lemma FilterInv(s: State, t: ThreadId, pc: Pc)
    requires Inv(s) && t in s.threads && s.threads[t].Joining? && s.threads[t].join.Filter?
    requires pc.Idle? || (pc.Joining? && (pc.join.Filter? || pc.join.JoinLock?))
    ensures Inv(At(s, t, pc))
  {
    hide Base;
    MoveBase(s, t, pc);
    MoveClean(s, t, pc);
  }

  lemma JoinLockInv(s: State, t: ThreadId, key: Key, kept: seq<Actor>)
    requires Inv(s) && t in s.threads && s.threads[t] == Joining(JoinLock(key, kept))
    ensures Inv(StepJoin(s, t, JoinLock(key, kept)))
  {
    hide Base;
    var e := GroupEntry(key);
    var pc := Joining(Loop(Join(key, kept, {}, {}, [])));
    if e !in s.locked {
      LockBase(s, t, e);
      MoveBase(Lock(Touch(s, e), t, e), t, pc);
      MoveClean(s, t, pc);
    }
  }

  /** A thread that holds nothing removes an empty entry and moves on. */
  lemma PruneInv(s: State, t: ThreadId, e: Entry, pc: Pc)
    requires Inv(s) && t in s.threads && e !in s.locked
    requires Located(s, t, pc) && HeldEntry(pc).None?
    requires forall r :: !Removes(s.threads[t], r)
    requires forall ref :: WillClean(s.threads[t], ref) ==> WillClean(pc, ref)
    ensures Inv(At(Prune(s, e), t, pc))
  {
    hide Base;
    EntryExclusive(s, t, e);
    PruneBase(s, e);
    MoveBase(Prune(s, e), t, pc);
    MoveClean(s, t, pc);
  }

  lemma JoinedInv(s: State, t: ThreadId, j: Join)
    requires Inv(s) && t in s.threads && s.threads[t] == Joining(Loop(j)) && j.todo == []
    ensures Inv(StepJoin(s, t, Loop(j)))
  {
    hide Base;
    ThreadLocated(s, t);
    var pc := Joining(Clean(j.key, j.accepted == {}, j.stopped));
    assert forall r :: r in Claimed(j) ==> Claims(s.threads[t], r);
    RecordBase(s, Claimed(j));
    var s1 := AddMembers(s, j);
    SameBase(s.(forward := s.forward + Claimed(j)), s1);
    MoveBase(s1, t, pc);
    MoveClean(s, t, pc);
    EntryExclusive(s, t, GroupEntry(j.key));
    UnlockBase(At(s1, t, pc), GroupEntry(j.key));
  }

  lemma FetchInv(s: State, t: ThreadId, j: Join)
    requires Inv(s) && t in s.threads && s.threads[t] == Joining(Loop(j)) && j.todo != []
    ensures Inv(StepJoin(s, t, Loop(j)))
  {
    hide Base;
    ThreadLocated(s, t);
    var a := j.todo[0];
    var rest := j.(todo := j.todo[1..]);
    if a in j.processed {
      MoveBase(s, t, Joining(Loop(rest)));
      MoveClean(s, t, Joining(Loop(rest)));
    } else {
      var pc := Joining(Fetched(rest.(processed := j.processed + {a}), Ref(a, Relations(s, a))));
      EnsureBase(s, a);
      assert forall r :: Claims(pc, r) <==> Claims(s.threads[t], r);
      MoveBase(Ensure(s, a), t, pc);
      EnsureInv(s, t, a, pc);
    }
  }

  lemma CheckInv(s: State, t: ThreadId, j: Join, ref: Ref)
    requires Inv(s) && t in s.threads && s.threads[t] == Joining(Check(j, ref))
    ensures Inv(StepJoin(s, t, Check(j, ref)))
  {
    hide Base;
    ThreadLocated(s, t);
    assert Refers(s.threads[t], ref);
    if !Stopping(s, ref.actor) {
      LiveIsCurrent(s, ref);
      var pc := Joining(Add(j, ref));
      assert forall r :: Claims(pc, r) <==> Claims(s.threads[t], r);
      MoveBase(s, t, pc);
      MoveClean(s, t, pc);
    } else {
      var j' := if Slots(s, ref.arc) == {} then j.(stopped := j.stopped + [ref]) else j;
      var pc := Joining(Loop(j'));
      assert forall r :: Claims(pc, r) <==> Claims(s.threads[t], r);
      MoveBase(s, t, pc);
      if Slots(s, ref.arc) != {} {
        NonEmptyIsOwed(s, ref);
      }
      MoveClean(s, t, pc);
      Relinquished(s, t, pc);
      ReleaseSame(At(s, t, pc), ref.arc);
    }
  }

  lemma AddedInv(s: State, t: ThreadId, j: Join, ref: Ref)
    requires Inv(s) && t in s.threads && s.threads[t] == Joining(Add(j, ref))
    ensures Inv(StepJoin(s, t, Add(j, ref)))
  {
    hide Base;
    ThreadLocated(s, t);
    assert Refers(s.threads[t], ref);
    var slots := Slots(s, ref.arc) + {Member(j.key)};
    var j' := j.(accepted := j.accepted + {ref.actor});
    var pc := Joining(Loop(j'));
    ContentsBase(s, ref.arc, slots);
    var s1 := SetArc(s, ref.arc, s.arcs[ref.arc].(slots := slots));
    assert forall r :: Claims(pc, r) <==> Claims(s.threads[t], r) || r == Reg(Member(j.key), ref.actor);
    MoveBase(s1, t, pc);
    MoveClean(s, t, pc);
    Relinquished(s1, t, pc);
    var s2 := At(s1, t, pc);
    ReleaseSame(s2, ref.arc);
    assert ArcRelease(s2, ref.arc, slots) == StepJoin(s, t, Add(j, ref));
  }

  lemma JoinCleanInv(s: State, t: ThreadId)
    requires Inv(s) && t in s.threads && s.threads[t].Joining? && s.threads[t].join.Clean?
    ensures Inv(StepJoin(s, t, s.threads[t].join))
  {
    hide Base;
    ThreadLocated(s, t);
    var Clean(key, noneJoined, stopped) := s.threads[t].join;
    if stopped == [] {
      var pc := if noneJoined then Joining(PruneGroup(key)) else Idle;
      MoveBase(s, t, pc);
      MoveClean(s, t, pc);
    } else if ArcFree(s, stopped[0].arc) {
      var pc := Joining(CleanHeld(key, noneJoined, stopped[0], stopped[1..]));
      AcquireInv(s, t, stopped[0], pc);
    }
  }

  /** A thread finishes `remove_empty_actor_relations` and moves on. */
  lemma CleanHeldInv(s: State, t: ThreadId, ref: Ref, pc: Pc)
    requires Inv(s) && t in s.threads && HeldRef(s.threads[t]) == Some(ref)
    requires Adding(s.threads[t]).None? && Adding(pc).None? && HeldRef(pc).None? && HeldEntry(pc).None?
    requires ref.actor in s.stops && ValidRef(s.arcs, ref) && Sensible(pc, s.stops)
    requires forall r :: !Claims(pc, r) && !Removes(s.threads[t], r)
    requires forall r :: Refers(pc, r) ==> Refers(s.threads[t], r)
    requires forall r :: WillClean(s.threads[t], r) ==> r == ref || WillClean(pc, r)
    ensures Inv(At(CleanRelations(s, ref), t, pc))
  {
    hide Base;
    ThreadLocated(s, t);
    MoveBase(s, t, pc);
    var s1 := At(s, t, pc);
    Relinquished(s, t, pc);
    CleanBase(s1, ref);
    CleanedUp(s1, ref);
    var s' := At(CleanRelations(s, ref), t, pc);
    assert s' == CleanRelations(s1, ref);
    forall a | a in s'.relations && a in s'.stops && !StopWillClean(s'.stops[a], s'.relations[a])
      ensures exists u :: u in s'.threads && WillClean(s'.threads[u], Ref(a, s'.relations[a]))
    {
      var u :| u in s.threads && WillClean(s.threads[u], Ref(a, s.relations[a]));
      assert WillClean(s'.threads[u], Ref(a, s'.relations[a]));
    }
  }

  lemma StepJoinInv(s: State, t: ThreadId)
    requires Inv(s) && t in s.threads && s.threads[t].Joining?
    ensures Inv(StepJoin(s, t, s.threads[t].join))
  {
    hide Base;
    ThreadLocated(s, t);
    match s.threads[t].join
    case Filter(_, _, _) => FilterInv(s, t, StepJoin(s, t, s.threads[t].join).threads[t]);
    case JoinLock(key, kept) => JoinLockInv(s, t, key, kept);
    case Loop(j) => if j.todo == [] { JoinedInv(s, t, j); } else { FetchInv(s, t, j); }
    case Fetched(j, ref) => if ArcFree(s, ref.arc) { AcquireInv(s, t, ref, Joining(Check(j, ref))); }
    case Check(j, ref) => CheckInv(s, t, j, ref);
    case Add(j, ref) => AddedInv(s, t, j, ref);
    case Clean(_, _, _) => JoinCleanInv(s, t);
    case CleanHeld(key, noneJoined, ref, stopped) =>
      assert Refers(s.threads[t], ref);
      CleanHeldInv(s, t, ref, Joining(Clean(key, noneJoined, stopped)));
    case PruneGroup(key) => if GroupEntry(key) !in s.locked { PruneInv(s, t, GroupEntry(key), Idle); }
  }

  // ------------------------------------------------------------------ monitor and monitor_scope

  lemma MonStartInv(s: State, t: ThreadId, slot: Slot, a: Actor)
    requires Inv(s) && t in s.threads && s.threads[t] == Monitoring(MonStart(slot, a))
    ensures Inv(StepMonitor(s, t, MonStart(slot, a)))
  {
    hide Base;
    ThreadLocated(s, t);
    var pc := Monitoring(MonLock(slot, Ref(a, Relations(s, a))));
    EnsureBase(s, a);
    MoveBase(Ensure(s, a), t, pc);
    EnsureInv(s, t, a, pc);
  }

  lemma MonLockInv(s: State, t: ThreadId, slot: Slot, ref: Ref)
    requires Inv(s) && t in s.threads && s.threads[t] == Monitoring(MonLock(slot, ref))
    ensures Inv(StepMonitor(s, t, MonLock(slot, ref)))
  {
    hide Base;
    ThreadLocated(s, t);
    var e := EntryOf(slot);
    var pc := Monitoring(MonFetched(slot, ref));
    if e !in s.locked {
      LockBase(s, t, e);
      MoveBase(Lock(Touch(s, e), t, e), t, pc);
      MoveClean(s, t, pc);
    }
  }

  lemma MonCheckInv(s: State, t: ThreadId, slot: Slot, ref: Ref)
    requires Inv(s) && t in s.threads && s.threads[t] == Monitoring(MonCheck(slot, ref))
    ensures Inv(StepMonitor(s, t, MonCheck(slot, ref)))
  {
    hide Base;
    ThreadLocated(s, t);
    assert Refers(s.threads[t], ref);
    if !Stopping(s, ref.actor) {
      LiveIsCurrent(s, ref);
      MoveBase(s, t, Monitoring(MonAdd(slot, ref)));
      MoveClean(s, t, Monitoring(MonAdd(slot, ref)));
    } else {
      var pc := Monitoring(MonAfter(slot, ref));
      MoveBase(s, t, pc);
      MoveClean(s, t, pc);
      Relinquished(s, t, pc);
      var s1 := At(s, t, pc);
      ReleaseSame(s1, ref.arc);
      EntryExclusive(s, t, EntryOf(slot));
      UnlockBase(ArcRelease(s1, ref.arc, Slots(s1, ref.arc)), EntryOf(slot));
    }
  }

  lemma MonAddInv(s: State, t: ThreadId, slot: Slot, ref: Ref)
    requires Inv(s) && t in s.threads && s.threads[t] == Monitoring(MonAdd(slot, ref))
    ensures Inv(StepMonitor(s, t, MonAdd(slot, ref)))
  {
    hide Base;
    ThreadLocated(s, t);
    assert Refers(s.threads[t], ref);
    var slots := Slots(s, ref.arc) + {slot};
    var pc := Monitoring(MonAfter(slot, ref));
    TakenHere(s, ref, slot);
    ContentsBase(s, ref.arc, slots);
    var s1 := SetArc(s, ref.arc, s.arcs[ref.arc].(slots := slots));
    RecordBase(s1, {Reg(slot, ref.actor)});
    var s2 := s1.(forward := s.forward + {Reg(slot, ref.actor)});
    MoveBase(s2, t, pc);
    MoveClean(s, t, pc);
    Relinquished(s2, t, pc);
    var s3 := At(s2, t, pc);
    ReleaseSame(s3, ref.arc);
    var s4 := ArcRelease(s3, ref.arc, slots);
    EntryExclusive(s, t, EntryOf(slot));
    UnlockBase(s4, EntryOf(slot));
    assert s4.arcs == StepMonitor(s, t, MonAdd(slot, ref)).arcs;
  }

  /** What may be added to relations during an addition. */
  lemma TakenHere(s: State, ref: Ref, slot: Slot)
    requires Base(s) && ValidRef(s.arcs, ref)
    requires ref.actor in s.stops ==> s.stops[ref.actor] == GetMonitors || s.stops[ref.actor] == LockMonitors(ref.arc)
    ensures ref.actor in s.stops ==>
              forall sl :: sl in Slots(s, ref.arc) + {slot} ==> Untaken(s.stops[ref.actor], sl, ref.arc)
  {
  }

  lemma StepMonitorInv(s: State, t: ThreadId)
    requires Inv(s) && t in s.threads && s.threads[t].Monitoring?
    ensures Inv(StepMonitor(s, t, s.threads[t].monitor))
  {
    hide Base;
    ThreadLocated(s, t);
    match s.threads[t].monitor
    case MonStart(slot, a) => MonStartInv(s, t, slot, a);
    case MonLock(slot, ref) => MonLockInv(s, t, slot, ref);
    case MonFetched(slot, ref) => if ArcFree(s, ref.arc) { AcquireInv(s, t, ref, Monitoring(MonCheck(slot, ref))); }
    case MonCheck(slot, ref) => MonCheckInv(s, t, slot, ref);
    case MonAdd(slot, ref) => MonAddInv(s, t, slot, ref);
    case MonAfter(slot, ref) =>
      var pc := if Stopping(s, ref.actor) then Monitoring(MonPrune(slot, ref)) else Idle;
      MoveBase(s, t, pc);
      MoveClean(s, t, pc);
    case MonPrune(slot, ref) =>
      if EntryOf(slot) !in s.locked { PruneInv(s, t, EntryOf(slot), Monitoring(MonClean(ref))); }
    case MonClean(ref) =>
      if ArcFree(s, ref.arc) { AcquireInv(s, t, ref, Monitoring(MonCleanHeld(ref))); }
    case MonCleanHeld(ref) =>
      assert Refers(s.threads[t], ref);
      CleanHeldInv(s, t, ref, Idle);
  }

  // ------------------------------------------------------------------ leave_scoped

  lemma LeaveEndInv(s: State, t: ThreadId, key: Key)
    requires Inv(s) && t in s.threads && s.threads[t] == Leaving(LeaveLoop(key, []))
    ensures Inv(StepLeave(s, t, LeaveLoop(key, [])))
  {
    hide Base, EmptyEntry, NoMembers;
    ThreadLocated(s, t);
    var e := GroupEntry(key);
    MoveBase(s, t, Idle);
    MoveClean(s, t, Idle);
    EntryExclusive(s, t, e);
    var s1 := At(s, t, Idle);
    IndexBase(s1, key);
    var s2 := PruneIndex(s1, key);
    PruneBase(s2, e);
    UnlockBase(Prune(s2, e), e);
  }

  lemma LeaveLoopInv(s: State, t: ThreadId, key: Key, todo: seq<Actor>)
    requires Inv(s) && t in s.threads && s.threads[t] == Leaving(LeaveLoop(key, todo))
    ensures Inv(StepLeave(s, t, LeaveLoop(key, todo)))
  {
    hide Base;
    ThreadLocated(s, t);
    if todo == [] {
      LeaveEndInv(s, t, key);
    } else {
      var pc := StepLeave(s, t, LeaveLoop(key, todo)).threads[t];
      RelationsValid(s);
      MoveBase(s, t, pc);
      MoveClean(s, t, pc);
    }
  }

  /** The index plays no part in the invariant. */
  lemma SameBase(s: State, s': State)
    requires Base(s) && s' == s.(index := s'.index)
    ensures Base(s')
  {
  }

  lemma RelationsValid(s: State)
    requires Base(s)
    ensures forall a :: a in s.relations ==> ValidRef(s.arcs, Ref(a, s.relations[a]))
  {
  }

  lemma IndexBase(s: State, key: Key)
    requires Base(s)
    ensures Base(PruneIndex(s, key))
  {
  }

  lemma LeaveHeldInv(s: State, t: ThreadId, key: Key, ref: Ref, todo: seq<Actor>)
    requires Inv(s) && t in s.threads && s.threads[t] == Leaving(LeaveHeld(key, ref, todo))
    ensures Inv(StepLeave(s, t, LeaveHeld(key, ref, todo)))
  {
    hide Base;
    ThreadLocated(s, t);
    assert Refers(s.threads[t], ref);
    var slots := Slots(s, ref.arc) - {Member(key)};
    var pc := Leaving(LeaveRemove(key, ref.actor, todo));
    MoveBase(s, t, pc);
    MoveClean(s, t, pc);
    Relinquished(s, t, pc);
    var s1 := At(s, t, pc);
    assert Removes(s1.threads[t], Reg(Member(key), ref.actor));
    EntryExclusive(s, t, GroupEntry(key));
    Smaller(s1, ref, slots);
    ContentsBase(s1, ref.arc, slots);
    ReleaseBase(s1, ref.arc, slots);
  }

  /** Relations that lose something are still where they were. */
  lemma Smaller(s: State, ref: Ref, slots: set<Slot>)
    requires Base(s) && ValidRef(s.arcs, ref) && slots <= Slots(s, ref.arc)
    ensures slots != {} ==> ref.actor in s.relations && s.relations[ref.actor] == ref.arc
    ensures ref.actor in s.stops ==> forall slot :: slot in slots ==> Untaken(s.stops[ref.actor], slot, ref.arc)
  {
  }

  lemma StepLeaveInv(s: State, t: ThreadId)
    requires Inv(s) && t in s.threads && s.threads[t].Leaving?
    ensures Inv(StepLeave(s, t, s.threads[t].leave))
  {
    hide Base;
    ThreadLocated(s, t);
    match s.threads[t].leave
    case LeaveLock(key, todo) =>
      if GroupEntry(key) !in s.locked {
        if Occupied(s, GroupEntry(key)) {
          LockBase(s, t, GroupEntry(key));
          MoveBase(Lock(s, t, GroupEntry(key)), t, Leaving(LeaveLoop(key, todo)));
          MoveClean(s, t, Leaving(LeaveLoop(key, todo)));
        } else {
          MoveBase(s, t, Idle);
          MoveClean(s, t, Idle);
        }
      }
    case LeaveLoop(key, todo) => LeaveLoopInv(s, t, key, todo);
    case LeaveFetched(key, ref, todo) =>
      if ArcFree(s, ref.arc) { AcquireInv(s, t, ref, Leaving(LeaveHeld(key, ref, todo))); }
    case LeaveHeld(key, ref, todo) => LeaveHeldInv(s, t, key, ref, todo);
    case LeaveRemove(key, a, todo) =>
      UnrecordBase(s, Reg(Member(key), a));
      MoveBase(s.(forward := s.forward - {Reg(Member(key), a)}), t, Leaving(LeaveLoop(key, todo)));
      MoveClean(s, t, Leaving(LeaveLoop(key, todo)));
  }

  // ------------------------------------------------------------------ demonitor and demonitor_scope

  lemma DemHeldInv(s: State, t: ThreadId, slot: Slot, ref: Ref)
    requires Inv(s) && t in s.threads && s.threads[t] == Demonitoring(DemHeld(slot, ref))
    ensures Inv(StepDemonitor(s, t, DemHeld(slot, ref)))
  {
    hide Base, Drop, ArcRelease;
    ThreadLocated(s, t);
    assert Refers(s.threads[t], ref);
    MoveBase(s, t, Idle);
    MoveClean(s, t, Idle);
    Relinquished(s, t, Idle);
    EntryExclusive(s, t, EntryOf(slot));
    var s1 := At(s, t, Idle);
    ForgetMonitor(s1, slot, ref);
    DropMoves(s, t, Reg(slot, ref.actor), ref.arc, Slots(s, ref.arc) - {slot});
    UnlockBase(ArcRelease(Drop(s1, Reg(slot, ref.actor)), ref.arc, Slots(s1, ref.arc) - {slot}), EntryOf(slot));
  }

  /** Dropping a registration has nothing to do with where a thread is. */
  lemma DropMoves(s: State, t: ThreadId, r: Reg, x: ArcId, slots: set<Slot>)
    ensures ArcRelease(Drop(At(s, t, Idle), r), x, slots) == At(ArcRelease(Drop(s, r), x, slots), t, Idle)
    ensures var s' := ArcRelease(Drop(s, r), x, slots);
            s'.threads == s.threads && s'.relations == s.relations && s'.stops == s.stops && s'.locked == s.locked
  {
    DropFrame(s, r);
    DropFrame(At(s, t, Idle), r);
    hide Drop;
  }

  lemma DropFrame(s: State, r: Reg)
    ensures Drop(s, r) == s.(forward := Drop(s, r).forward, entries := Drop(s, r).entries)
    ensures forall t, pc :: Drop(At(s, t, pc), r) == At(Drop(s, r), t, pc)
  {
    hide EmptyEntry;
  }

  /** Removing a listener forward and then from its relations. */
  lemma ForgetMonitor(s: State, slot: Slot, ref: Ref)
    requires Base(s) && ValidRef(s.arcs, ref) && Unheld(s, ref.arc) && !slot.Member?
    requires forall t :: t in s.threads ==> HeldEntry(s.threads[t]) != Some(EntryOf(slot))
    ensures Base(ArcRelease(Drop(s, Reg(slot, ref.actor)), ref.arc, Slots(s, ref.arc) - {slot}))
  {
    hide Base;
    var slots := Slots(s, ref.arc) - {slot};
    DropBase(s, Reg(slot, ref.actor));
    var s1 := Drop(s, Reg(slot, ref.actor));
    Smaller(s1, ref, slots);
    ContentsBase(s1, ref.arc, slots);
    ReleaseBase(s1, ref.arc, slots);
  }

  lemma DemLockInv(s: State, t: ThreadId, slot: Slot, a: Actor, rel: Option<ArcId>)
    requires Inv(s) && t in s.threads && s.threads[t] == Demonitoring(DemLock(slot, a, rel))
    requires EntryOf(slot) !in s.locked
    ensures Inv(StepDemonitor(s, t, DemLock(slot, a, rel)))
  {
    hide Base;
    ThreadLocated(s, t);
    if rel.Some? {
      assert Refers(s.threads[t], Ref(a, rel.value));
      LockBase(s, t, EntryOf(slot));
      MoveBase(Lock(s, t, EntryOf(slot)), t, Demonitoring(DemFetched(slot, Ref(a, rel.value))));
      MoveClean(s, t, Demonitoring(DemFetched(slot, Ref(a, rel.value))));
    } else {
      EntryExclusive(s, t, EntryOf(slot));
      DropBase(s, Reg(slot, a));
      MoveBase(Drop(s, Reg(slot, a)), t, Idle);
      MoveClean(s, t, Idle);
    }
  }

  lemma StepDemonitorInv(s: State, t: ThreadId)
    requires Inv(s) && t in s.threads && s.threads[t].Demonitoring?
    ensures Inv(StepDemonitor(s, t, s.threads[t].dem))
  {
    hide Base;
    ThreadLocated(s, t);
    match s.threads[t].dem
    case DemStart(slot, a) =>
      RelationsValid(s);
      var pc := Demonitoring(DemLock(slot, a, if a in s.relations then Some(s.relations[a]) else None));
      MoveBase(s, t, pc);
      MoveClean(s, t, pc);
    case DemLock(slot, a, rel) => if EntryOf(slot) !in s.locked { DemLockInv(s, t, slot, a, rel); }
    case DemFetched(slot, ref) =>
      if ArcFree(s, ref.arc) { AcquireInv(s, t, ref, Demonitoring(DemHeld(slot, ref))); }
    case DemHeld(slot, ref) => DemHeldInv(s, t, slot, ref);
  }

  lemma StepThreadInv(s: State, t: ThreadId, choice: Choice)
    requires Inv(s) && t in s.threads
    ensures Inv(StepThread(s, t, choice))
  {
    hide Base;
    match s.threads[t]
    case Idle =>
      var pc := StepThread(s, t, choice).threads[t];
      if StepThread(s, t, choice) != s {
        MoveBase(s, t, pc);
        MoveClean(s, t, pc);
      }
    case Joining(_) => StepJoinInv(s, t);
    case Monitoring(_) => StepMonitorInv(s, t);
    case Leaving(_) => StepLeaveInv(s, t);
    case Demonitoring(_) => StepDemonitorInv(s, t);
  }

  // ------------------------------------------------------------------ shutdown

  lemma PublishInv(s: State, a: Actor)
    requires Inv(s) && a !in s.stops
    ensures Inv(Stop(s, a, GetMonitors))
  {
    hide Base;
    StopBase(s, a, GetMonitors);
  }

  /** A shutdown moves on; it keeps its promise about the relations of its actor. */
  lemma StopInv(s: State, a: Actor, pc: StopPc)
    requires Inv(s) && a in s.stops && Base(Stop(s, a, pc))
    requires a in s.relations && StopWillClean(s.stops[a], s.relations[a]) ==> StopWillClean(pc, s.relations[a])
    ensures Inv(Stop(s, a, pc))
  {
    hide Base;
  }

  lemma GetInv(s: State, a: Actor)
    requires Inv(s) && a in s.stops && (s.stops[a].GetMonitors? || s.stops[a].GetMembers?)
    ensures Inv(StepStop(s, a, Member(Key("", ""))))
  {
    hide Base;
    ShutdownLocated(s, a);
    RelationsValid(s);
    var pc := StepStop(s, a, Member(Key("", ""))).stops[a];
    forall x, slot | 0 <= x < |s.arcs| && s.arcs[x].owner == a && slot in s.arcs[x].slots
      ensures Untaken(pc, slot, x)
    {
      OnlyCurrentRecords(s, x, slot);
      assert Untaken(s.stops[a], slot, x);
    }
    forall t | t in s.threads && Adding(s.threads[t]).Some? && Adding(s.threads[t]).value.actor == a
      ensures pc == GetMonitors || pc == LockMonitors(Adding(s.threads[t]).value.arc)
    {
      AddingHolds(s, t);
    }
    StopBase(s, a, pc);
    StopInv(s, a, pc);
  }

  /** A shutdown acquires the relations it refers to. */
  lemma StopAcquireInv(s: State, a: Actor, x: ArcId, pc: StopPc)
    requires Inv(s) && a in s.stops && ArcFree(s, x) && StopRefers(s.stops[a]) == Some(x)
    requires (s.stops[a].LockMonitors? && pc == TakeMonitors(x)) || (s.stops[a].LockMembers? && pc == TakeMembers(x))
             || (s.stops[a].CleanLock? && pc == CleanDo(x))
    ensures Inv(Stop(ArcLock(s, x, S(a)), a, pc))
  {
    hide Base;
    ShutdownLocated(s, a);
    AcquireBase(s, x, S(a));
    var s1 := ArcLock(s, x, S(a));
    forall t | t in s.threads && Adding(s.threads[t]).Some?
      ensures Adding(s.threads[t]).value.actor != a
    {
      AddingHolds(s, t);
    }
    assert forall y :: 0 <= y < |s.arcs| ==> s1.arcs[y].slots == s.arcs[y].slots && s1.arcs[y].owner == s.arcs[y].owner;
    StopBase(s1, a, pc);
    StopInv(s1, a, pc);
  }

  /** What a shutdown takes out of held relations: all monitors, or all memberships. */
  ghost predicate Takes(s: State, a: Actor, x: ArcId, taken: set<Slot>, pc: StopPc)
  {
    && a in s.stops
    && ((s.stops[a] == TakeMonitors(x) && pc == DropMonitors(taken) && taken == set slot | slot in Slots(s, x) && Monitors(slot))
        || (s.stops[a] == TakeMembers(x) && pc == DropMembers(x, taken) && taken == set slot | slot in Slots(s, x) && !Monitors(slot)))
  }

  lemma TakeHolders(s: State, a: Actor, x: ArcId, taken: set<Slot>, pc: StopPc)
    requires Base(s) && Takes(s, a, x, taken, pc)
    ensures var s' := Stop(ArcRelease(s, x, Slots(s, x) - taken), a, pc);
            HolderInv(s'.arcs, s'.threads, s'.stops)
  {
    hide EntryInv, RefInv, AddInv, CurrentInv, TakenInv, SensibleInv, ExistInv, CoverInv;
    var s' := Stop(ArcRelease(s, x, Slots(s, x) - taken), a, pc);
    assert s.arcs[x].holder == Some(S(a));
    assert forall y :: 0 <= y < |s.arcs| && y != x ==> s'.arcs[y] == s.arcs[y];
  }

  lemma TakeArcs(s: State, a: Actor, x: ArcId, taken: set<Slot>, pc: StopPc)
    requires Base(s) && Takes(s, a, x, taken, pc)
    ensures var s' := Stop(ArcRelease(s, x, Slots(s, x) - taken), a, pc);
            && RefInv(s'.arcs, s'.relations, s'.threads, s'.stops)
            && AddInv(s'.relations, s'.threads, s'.stops)
  {
    hide EntryInv, CurrentInv, TakenInv, SensibleInv, ExistInv, CoverInv;
    var s' := Stop(ArcRelease(s, x, Slots(s, x) - taken), a, pc);
    assert ValidRef(s.arcs, Ref(a, x));
    assert s.arcs[x].holder == Some(S(a));
    assert forall ref :: ValidRef(s.arcs, ref) ==> ValidRef(s'.arcs, ref);
  }

  lemma TakeRecords(s: State, a: Actor, x: ArcId, taken: set<Slot>, pc: StopPc)
    requires Base(s) && Takes(s, a, x, taken, pc)
    ensures var s' := Stop(ArcRelease(s, x, Slots(s, x) - taken), a, pc);
            && CurrentInv(s'.arcs, s'.relations, s'.stops)
            && TakenInv(s'.arcs, s'.stops)
            && SensibleInv(s'.threads, s'.stops)
  {
    var s' := Stop(ArcRelease(s, x, Slots(s, x) - taken), a, pc);
    assert ValidRef(s.arcs, Ref(a, x));
    assert forall y :: 0 <= y < |s.arcs| && y != x ==> s'.arcs[y] == s.arcs[y];
    forall t | t in s.threads
      ensures Sensible(s'.threads[t], s'.stops)
    {
      assert Sensible(s.threads[t], s.stops);
    }
    forall y, slot | 0 <= y < |s'.arcs| && slot in s'.arcs[y].slots && s'.arcs[y].owner in s'.stops
      ensures Untaken(s'.stops[s'.arcs[y].owner], slot, y)
    {
      assert slot in s.arcs[y].slots;
      assert Untaken(s.stops[s.arcs[y].owner], slot, y);
    }
  }

  lemma TakeCovers(s: State, a: Actor, x: ArcId, taken: set<Slot>, pc: StopPc)
    requires Base(s) && Takes(s, a, x, taken, pc)
    ensures var s' := Stop(ArcRelease(s, x, Slots(s, x) - taken), a, pc);
            CoverInv(s'.forward, s'.arcs, s'.relations, s'.threads, s'.stops)
  {
    var s' := Stop(ArcRelease(s, x, Slots(s, x) - taken), a, pc);
    assert ValidRef(s.arcs, Ref(a, x));
    assert forall y :: 0 <= y < |s.arcs| && y != x ==> s'.arcs[y] == s.arcs[y];
    assert forall r :: Known(s.arcs, s.relations, s.stops, r) ==> Known(s'.arcs, s'.relations, s'.stops, r);
  }

  /** Taking relationships out of the held relations into the drained list. */
  lemma TakeInv(s: State, a: Actor, x: ArcId, taken: set<Slot>, pc: StopPc)
    requires Inv(s) && Takes(s, a, x, taken, pc)
    ensures Inv(Stop(ArcRelease(s, x, Slots(s, x) - taken), a, pc))
  {
    TakeHolders(s, a, x, taken, pc);
    TakeArcs(s, a, x, taken, pc);
    TakeRecords(s, a, x, taken, pc);
    TakeCovers(s, a, x, taken, pc);
    hide HolderInv, RefInv, CurrentInv, TakenInv, CoverInv, SensibleInv, AddInv;
  }

  /** A claimed membership is claimed by a thread that holds its group. */
  lemma ClaimsHold(pc: Pc, r: Reg)
    requires Claims(pc, r)
    ensures HeldEntry(pc) == Some(EntryOf(r.slot))
  {
  }

  /** Removing one drained relationship forward. */
  lemma DropInv(s: State, a: Actor, pick: Slot, s1: State, pc: StopPc)
    requires Inv(s) && a in s.stops && pick in Drained(s.stops[a]) && EntryOf(pick) !in s.locked
    requires (s.stops[a].DropMonitors? && pc == DropMonitors(s.stops[a].slots - {pick}))
             || (s.stops[a].DropMembers? && pc == DropMembers(s.stops[a].arc, s.stops[a].slots - {pick}))
    requires Base(s1) && s1 == s.(forward := s1.forward, entries := s1.entries, index := s1.index)
    requires Reg(pick, a) !in s1.forward
    ensures Inv(Stop(s1, a, pc))
  {
    hide Base;
    ShutdownLocated(s, a);
    EntryExclusive(s, 0, EntryOf(pick));
    forall t | t in s.threads
      ensures !Claims(s.threads[t], Reg(pick, a))
    {
      if Claims(s.threads[t], Reg(pick, a)) { ClaimsHold(s.threads[t], Reg(pick, a)); }
    }
    StopBase(s1, a, pc);
    StopInv(s1, a, pc);
  }

  lemma DropMemberBase(s: State, r: Reg)
    requires Base(s) && EntryOf(r.slot) !in s.locked
    ensures var s' := if Occupied(s, EntryOf(r.slot)) && r in s.forward
                      then Prune(PruneIndex(s.(forward := s.forward - {r}), r.slot.key), EntryOf(r.slot)) else s;
            && Base(s') && r !in s'.forward
            && s' == s.(forward := s'.forward, entries := s'.entries, index := s'.index)
  {
    ExistsForward(s, r);
    hide Base;
    EntryExclusive(s, 0, EntryOf(r.slot));
    if Occupied(s, EntryOf(r.slot)) && r in s.forward {
      var s1 := s.(forward := s.forward - {r});
      UnrecordBase(s, r);
      IndexBase(s1, r.slot.key);
      PruneBase(PruneIndex(s1, r.slot.key), EntryOf(r.slot));
    }
  }

  lemma ExistsForward(s: State, r: Reg)
    requires Base(s)
    ensures r in s.forward ==> Occupied(s, EntryOf(r.slot))
  {
  }

  lemma DropsInv(s: State, a: Actor, pick: Slot)
    requires Inv(s) && a in s.stops && (s.stops[a].DropMonitors? || s.stops[a].DropMembers?)
    ensures Inv(StepStop(s, a, pick))
  {
    hide Base;
    ShutdownLocated(s, a);
    var slots := s.stops[a].slots;
    if slots == {} {
      var pc := StepStop(s, a, pick).stops[a];
      StopBase(s, a, pc);
      StopInv(s, a, pc);
    } else if pick in slots && EntryOf(pick) !in s.locked {
      EntryExclusive(s, 0, EntryOf(pick));
      if s.stops[a].DropMonitors? {
        DropBase(s, Reg(pick, a));
        DropFrame(s, Reg(pick, a));
        DropInv(s, a, pick, Drop(s, Reg(pick, a)), DropMonitors(slots - {pick}));
      } else {
        DropMemberBase(s, Reg(pick, a));
        var s1 := if Occupied(s, EntryOf(pick)) && Reg(pick, a) in s.forward
                  then Prune(PruneIndex(s.(forward := s.forward - {Reg(pick, a)}), pick.key), EntryOf(pick)) else s;
        DropInv(s, a, pick, s1, DropMembers(s.stops[a].arc, slots - {pick}));
      }
    }
  }

  lemma CleanDoInv(s: State, a: Actor, x: ArcId)
    requires Inv(s) && a in s.stops && s.stops[a] == CleanDo(x)
    ensures Inv(Stop(CleanRelations(s, Ref(a, x)), a, Done))
  {
    hide Base;
    ShutdownLocated(s, a);
    assert forall slot :: slot in Slots(s, x) ==> Untaken(s.stops[a], slot, x);
    assert Slots(s, x) == {};
    Yielded(s, a, x);
    StopBase(s, a, Done);
    var s1 := Stop(s, a, Done);
    CleanBase(s1, Ref(a, x));
    assert CleanRelations(s1, Ref(a, x)) == Stop(CleanRelations(s, Ref(a, x)), a, Done);
  }

  /** The relations a shutdown holds are held by nobody else. */
  lemma Yielded(s: State, a: Actor, x: ArcId)
    requires Base(s) && a in s.stops && s.stops[a] == CleanDo(x)
    ensures Unheld(Stop(s, a, Done), x)
    ensures forall t :: t in s.threads && Adding(s.threads[t]).Some? ==> Adding(s.threads[t]).value.arc != x
  {
    forall t | t in s.threads && Adding(s.threads[t]).Some?
      ensures Adding(s.threads[t]).value.arc != x
    {
      AddingHolds(s, t);
    }
  }

  lemma StepStopInv(s: State, a: Actor, pick: Slot)
    requires Inv(s) && a in s.stops
    ensures Inv(StepStop(s, a, pick))
  {
    hide Base;
    match s.stops[a]
    case GetMonitors => GetInv(s, a);
    case LockMonitors(x) => if ArcFree(s, x) { StopAcquireInv(s, a, x, TakeMonitors(x)); }
    case TakeMonitors(x) =>
      var taken := set slot | slot in Slots(s, x) && Monitors(slot);
      TakeInv(s, a, x, taken, DropMonitors(taken));
    case DropMonitors(_) => DropsInv(s, a, pick);
    case GetMembers => GetInv(s, a);
    case LockMembers(x) => if ArcFree(s, x) { StopAcquireInv(s, a, x, TakeMembers(x)); }
    case TakeMembers(x) =>
      var taken := set slot | slot in Slots(s, x) && !Monitors(slot);
      TakeInv(s, a, x, taken, DropMembers(x, taken));
    case DropMembers(_, _) => DropsInv(s, a, pick);
    case CleanLock(x) => if ArcFree(s, x) { StopAcquireInv(s, a, x, CleanDo(x)); }
    case CleanDo(x) => CleanDoInv(s, a, x);
    case Done =>
  }

  // ------------------------------------------------------------------ every run

  lemma NextInv(s: State, e: Event)
    requires Inv(s)
    ensures Inv(Next(s, e))
  {
    hide Inv;
    match e
    case Thread(t, choice) => if t in s.threads { StepThreadInv(s, t, choice); }
    case Publish(a) => if a !in s.stops { PublishInv(s, a); }
    case Shutdown(a, pick) => if a in s.stops { StepStopInv(s, a, pick); }
  }

  lemma {:induction false} RunInv(s: State, events: seq<Event>)
    requires Inv(s)
    ensures Inv(Run(s, events))
    decreases |events|
  {
    hide Inv;
    if events != [] {
      NextInv(s, events[0]);
      RunInv(Next(s, events[0]), events[1..]);
    }
  }

  lemma InitInv(threads: set<ThreadId>)
    ensures Inv(Init(threads))
  {
  }

  lemma CoverOf(s: State)
    requires Base(s)
    ensures CoverInv(s.forward, s.arcs, s.relations, s.threads, s.stops)
  {
  }

  /** Coverage: in every reachable state, whatever is recorded about an actor forward is in
      its reverse index entry, or in what its shutdown has drained from it and not yet
      removed, or is being removed by a thread that holds the group. A membership that a
      join has accepted but not yet recorded is covered by one of the first two. */
  lemma ForwardIsCovered(threads: set<ThreadId>, events: seq<Event>)
    ensures var s := Run(Init(threads), events);
            && (forall r :: r in s.forward ==>
                  || Known(s.arcs, s.relations, s.stops, r)
                  || (exists t :: t in s.threads && Removes(s.threads[t], r)))
            && (forall t, r :: t in s.threads && Claims(s.threads[t], r) ==> Known(s.arcs, s.relations, s.stops, r))
  {
    hide Base, Run;
    InitInv(threads);
    RunInv(Init(threads), events);
    CoverOf(Run(Init(threads), events));
  }

  /** Once the shutdown of an actor has finished and no operation is in flight, nothing of
      the actor is left: no membership, no listener, no world listener and no reverse
      index entry, however its registrations raced with the shutdown. */
  lemma StoppedActorLeavesNothing(threads: set<ThreadId>, events: seq<Event>, a: Actor)
    ensures var s := Run(Init(threads), events);
            a in s.stops && s.stops[a].Done? && (forall t :: t in s.threads ==> s.threads[t].Idle?) ==>
              a !in s.relations && forall r :: r in s.forward ==> r.actor != a
  {
    hide Base, Run;
    InitInv(threads);
    RunInv(Init(threads), events);
    CoverOf(Run(Init(threads), events));
  }

  /** A registration that checks the status of an actor after `Stopping` was published
      records nothing: it can only ever happen while the shutdown is still waiting. */
  lemma RegistrationPrecedesDrain(threads: set<ThreadId>, events: seq<Event>, t: ThreadId)
    ensures var s := Run(Init(threads), events);
            t in s.threads && Adding(s.threads[t]).Some? && Adding(s.threads[t]).value.actor in s.stops ==>
              var ref := Adding(s.threads[t]).value;
              s.stops[ref.actor] == GetMonitors || s.stops[ref.actor] == LockMonitors(ref.arc)
  {
    InitInv(threads);
    RunInv(Init(threads), events);
  }
}
