/**
 The reverse index against the forward entries under concurrency: what an actor's
 relations record is recorded forward, for memberships always and for listeners unless a
 demonitor that found no relations overtakes a monitor.
 */
module PgLocksReverse {
  import opened Options
  import opened PgNames
  import opened PgLocks
  import opened PgLocksInvariant
  import opened PgLocksSafety
  import opened PgLocksIndex

  predicate Records(arcs: seq<Arc>, x: ArcId, r: Reg)
  {
    x < |arcs| && arcs[x].owner == r.actor && r.slot in arcs[x].slots
  }

  /** Of several relations of one actor none records anything, and a thread about to record
      something does so in the only ones. */
  ghost predicate SingleInv(arcs: seq<Arc>, threads: map<ThreadId, Pc>)
  {
    && (forall x, y :: 0 <= x < |arcs| && 0 <= y < |arcs| && x != y && arcs[x].owner == arcs[y].owner ==> arcs[x].slots == {})
    && (forall t, x :: t in threads && Adding(threads[t]).Some? && 0 <= x < |arcs| && arcs[x].owner == Adding(threads[t]).value.actor ==>
          x == Adding(threads[t]).value.arc)
  }

  /** A member about to be removed forward is not recorded. */
  ghost predicate RemovedInv(arcs: seq<Arc>, threads: map<ThreadId, Pc>)
  {
    forall t, x, r :: t in threads && Removes(threads[t], r) ==> !Records(arcs, x, r)
  }

  /** What is recorded is recorded forward or about to be. */
  ghost predicate Backed(forward: set<Reg>, threads: map<ThreadId, Pc>, r: Reg)
  {
    r in forward || exists t :: t in threads && Claims(threads[t], r)
  }

  /** Every recorded membership, or every recorded listener, is backed. */
  ghost predicate BackedInv(forward: set<Reg>, arcs: seq<Arc>, threads: map<ThreadId, Pc>, members: bool)
  {
    forall x, r :: Records(arcs, x, r) && r.slot.Member? == members ==> Backed(forward, threads, r)
  }

  ghost predicate Reverse(s: State, members: bool)
  {
    && SingleInv(s.arcs, s.threads)
    && RemovedInv(s.arcs, s.threads)
    && BackedInv(s.forward, s.arcs, s.threads, members)
  }

  /** The step of a demonitor that found no relations and now removes a listener forward
      which has been recorded in the meantime. */
  ghost predicate Overtakes(s: State, e: Event)
  {
    && e.Thread? && e.t in s.threads && s.threads[e.t].Demonitoring?
    && var dem := s.threads[e.t].dem;
    && dem.DemLock? && dem.rel.None? && EntryOf(dem.slot) !in s.locked
    && exists x :: Records(s.arcs, x, Reg(dem.slot, dem.actor))
  }

  // ------------------------------------------------------------------ one relations object per actor

  /** The relations keep their owners and record no more than before. */
  predicate Shrinks(arcs: seq<Arc>, arcs': seq<Arc>)
  {
    && |arcs'| == |arcs|
    && forall x :: 0 <= x < |arcs| ==> arcs'[x].owner == arcs[x].owner && arcs'[x].slots <= arcs[x].slots
  }

  lemma ShrinkSingle(s: State, s': State, t: ThreadId)
    requires SingleInv(s.arcs, s.threads) && Shrinks(s.arcs, s'.arcs) && t in s'.threads
    requires s'.threads == s.threads[t := s'.threads[t]] && Adding(s'.threads[t]).None?
    ensures SingleInv(s'.arcs, s'.threads)
  {
  }

  lemma ShrinkSingleStop(s: State, s': State)
    requires SingleInv(s.arcs, s.threads) && Shrinks(s.arcs, s'.arcs) && s'.threads == s.threads
    ensures SingleInv(s'.arcs, s'.threads)
  {
  }

  /** The status check passes: the actor is live, so it has one relations object. */
  lemma CheckedSingle(s: State, t: ThreadId, ref: Ref, pc: Pc)
    requires Base(s) && SingleInv(s.arcs, s.threads) && ref.actor !in s.stops && ValidRef(s.arcs, ref)
    requires Adding(pc) == Some(ref)
    ensures SingleInv(s.arcs, At(s, t, pc).threads)
  {
    hide EntryInv, HolderInv, RefInv, AddInv, TakenInv, SensibleInv, ExistInv, CoverInv;
    forall x | 0 <= x < |s.arcs| && s.arcs[x].owner == ref.actor ensures x == ref.arc {
      LiveIsCurrent(s, Ref(ref.actor, x));
      LiveIsCurrent(s, ref);
    }
  }

  lemma AddedSingle(s: State, t: ThreadId, ref: Ref, slots: set<Slot>, s': State)
    requires SingleInv(s.arcs, s.threads) && t in s.threads && Adding(s.threads[t]) == Some(ref) && ValidRef(s.arcs, ref)
    requires s'.arcs == s.arcs[ref.arc := s.arcs[ref.arc].(slots := slots, holder := None)]
    requires t in s'.threads && s'.threads == s.threads[t := s'.threads[t]] && Adding(s'.threads[t]).None?
    ensures SingleInv(s'.arcs, s'.threads)
  {
  }

  lemma EnsureSingle(s: State, t: ThreadId, a: Actor, pc: Pc)
    requires Base(s) && SingleInv(s.arcs, s.threads) && t in s.threads && Adding(pc).None?
    ensures SingleInv(Ensure(s, a).arcs, At(s, t, pc).threads)
  {
    hide EntryInv, HolderInv, RefInv, TakenInv, SensibleInv, ExistInv, CoverInv;
    if a !in s.relations {
      var arcs := Ensure(s, a).arcs;
      assert forall x :: 0 <= x < |s.arcs| ==> arcs[x] == s.arcs[x];
      assert forall x :: 0 <= x < |s.arcs| && s.arcs[x].owner == a ==> s.arcs[x].slots == {};
    }
  }

  // ------------------------------------------------------------------ what a step must keep

  /** What thread t may do: record only what it backs and nobody is removing, remove
      forward only what is not recorded, and keep its claims until they are recorded. */
  ghost predicate Behaves(s: State, s': State, t: ThreadId, members: bool)
    requires t in s.threads && t in s'.threads
  {
    && s'.threads == s.threads[t := s'.threads[t]]
    && (forall x, r :: Records(s'.arcs, x, r) ==>
          || Records(s.arcs, x, r)
          || ((r in s'.forward || Claims(s'.threads[t], r)) && forall u :: u in s.threads && u != t ==> !Removes(s.threads[u], r)))
    && (forall x, r :: r in s.forward && r !in s'.forward && r.slot.Member? == members ==> !Records(s'.arcs, x, r))
    && (forall r :: Claims(s.threads[t], r) ==> Claims(s'.threads[t], r) || r in s'.forward)
    && (forall x, r :: Removes(s'.threads[t], r) ==> !Records(s'.arcs, x, r))
  }

  lemma BehavesKeeps(s: State, s': State, t: ThreadId, members: bool)
    requires Reverse(s, members) && t in s.threads && t in s'.threads && Behaves(s, s', t, members)
    ensures RemovedInv(s'.arcs, s'.threads) && BackedInv(s'.forward, s'.arcs, s'.threads, members)
  {
    forall x, r | Records(s'.arcs, x, r) && r.slot.Member? == members ensures Backed(s'.forward, s'.threads, r) {
      if r !in s'.forward && Records(s.arcs, x, r) {
        assert Backed(s.forward, s.threads, r);
        var u :| u in s.threads && Claims(s.threads[u], r);
        assert Claims(s'.threads[u], r);
      }
    }
  }

  /** A thread moves without touching what is recorded forward. */
  lemma MoveReverse(s: State, s': State, t: ThreadId, members: bool)
    requires Reverse(s, members) && t in s.threads && t in s'.threads && Shrinks(s.arcs, s'.arcs)
    requires s'.threads == s.threads[t := s'.threads[t]] && s'.forward == s.forward
    requires Adding(s'.threads[t]).None?
    requires forall r :: Claims(s.threads[t], r) ==> Claims(s'.threads[t], r)
    requires forall x, r :: Removes(s'.threads[t], r) ==> !Records(s'.arcs, x, r)
    ensures Reverse(s', members)
  {
    hide SingleInv, RemovedInv, BackedInv;
    ShrinkSingle(s, s', t);
    BehavesKeeps(s, s', t, members);
  }

  lemma ReleaseShrinks(s: State, x: ArcId, slots: set<Slot>)
    requires slots <= Slots(s, x)
    ensures Shrinks(s.arcs, ArcRelease(s, x, slots).arcs)
  {
  }

  lemma LockShrinks(s: State, x: ArcId, p: Proc)
    ensures Shrinks(s.arcs, ArcLock(s, x, p).arcs)
  {
  }

  /** A thread acquires the mutex of relations. */
  lemma AcquireReverse(s: State, t: ThreadId, x: ArcId, pc: Pc, members: bool)
    requires Reverse(s, members) && t in s.threads && Adding(pc).None?
    requires forall r :: Claims(s.threads[t], r) ==> Claims(pc, r)
    requires forall r :: !Removes(pc, r)
    ensures Reverse(At(ArcLock(s, x, T(t)), t, pc), members)
  {
    hide Reverse;
    LockShrinks(s, x, T(t));
    MoveReverse(s, At(ArcLock(s, x, T(t)), t, pc), t, members);
  }

  /** A thread finishes `remove_empty_actor_relations` and moves on. */
  lemma CleanReverse(s: State, t: ThreadId, ref: Ref, pc: Pc, members: bool)
    requires Reverse(s, members) && t in s.threads && Adding(pc).None?
    requires forall r :: !Claims(s.threads[t], r) && !Removes(pc, r)
    ensures Reverse(At(CleanRelations(s, ref), t, pc), members)
  {
    hide Reverse;
    ReleaseShrinks(s, ref.arc, Slots(s, ref.arc));
    MoveReverse(s, At(CleanRelations(s, ref), t, pc), t, members);
  }

  lemma EnsureReverse(s: State, t: ThreadId, a: Actor, pc: Pc, members: bool)
    requires Base(s) && Reverse(s, members) && t in s.threads && Adding(pc).None?
    requires forall r :: Claims(s.threads[t], r) ==> Claims(pc, r)
    requires forall r :: !Removes(pc, r)
    ensures Reverse(At(Ensure(s, a), t, pc), members)
  {
    hide SingleInv, RemovedInv, BackedInv, Base;
    EnsureSingle(s, t, a, pc);
    BehavesKeeps(s, At(Ensure(s, a), t, pc), t, members);
  }

  // ------------------------------------------------------------------ join_scoped

  lemma JoinedReverse(s: State, t: ThreadId, j: Join, members: bool)
    requires Reverse(s, members) && t in s.threads && s.threads[t] == Joining(Loop(j)) && j.todo == []
    ensures Reverse(StepJoin(s, t, Loop(j)), members)
  {
    hide SingleInv, RemovedInv, BackedInv;
    var s' := StepJoin(s, t, Loop(j));
    ShrinkSingle(s, s', t);
    BehavesKeeps(s, s', t, members);
  }

  /** Nobody else removes a member of a group that the thread holds. */
  lemma HolderRemoves(s: State, t: ThreadId, key: Key)
    requires Base(s) && t in s.threads && HeldEntry(s.threads[t]) == Some(GroupEntry(key))
    ensures forall u, a :: u in s.threads && u != t ==> !Removes(s.threads[u], Reg(Member(key), a))
  {
    hide Base;
    ThreadLocated(s, t);
    EntryExclusive(s, t, GroupEntry(key));
  }

  lemma AddedReverse(s: State, t: ThreadId, j: Join, ref: Ref, members: bool)
    requires Base(s) && Reverse(s, members) && t in s.threads && s.threads[t] == Joining(Add(j, ref))
    ensures Reverse(StepJoin(s, t, Add(j, ref)), members)
  {
    hide SingleInv, RemovedInv, BackedInv, Base;
    ThreadLocated(s, t);
    assert Refers(s.threads[t], ref);
    HolderRemoves(s, t, j.key);
    var s' := StepJoin(s, t, Add(j, ref));
    AddedSingle(s, t, ref, Slots(s, ref.arc) + {Member(j.key)}, s');
    forall x, r | Records(s'.arcs, x, r) && !Records(s.arcs, x, r) ensures r == Reg(Member(j.key), ref.actor) {
    }
    assert Claims(s'.threads[t], Reg(Member(j.key), ref.actor));
    BehavesKeeps(s, s', t, members);
  }

  lemma CheckReverse(s: State, t: ThreadId, j: Join, ref: Ref, members: bool)
    requires Base(s) && Reverse(s, members) && t in s.threads && s.threads[t] == Joining(Check(j, ref))
    ensures Reverse(StepJoin(s, t, Check(j, ref)), members)
  {
    hide SingleInv, RemovedInv, BackedInv, Base;
    ThreadLocated(s, t);
    assert Refers(s.threads[t], ref);
    var s' := StepJoin(s, t, Check(j, ref));
    if !Stopping(s, ref.actor) {
      CheckedSingle(s, t, ref, s'.threads[t]);
      BehavesKeeps(s, s', t, members);
    } else {
      ReleaseShrinks(s, ref.arc, Slots(s, ref.arc));
      MoveReverse(s, s', t, members);
    }
  }

  lemma StepJoinReverse(s: State, t: ThreadId, members: bool)
    requires Base(s) && Reverse(s, members) && t in s.threads && s.threads[t].Joining?
    ensures Reverse(StepJoin(s, t, s.threads[t].join), members)
  {
    hide Reverse, Base;
    var s' := StepJoin(s, t, s.threads[t].join);
    match s.threads[t].join
    case Loop(j) =>
      if j.todo == [] { JoinedReverse(s, t, j, members); }
      else if j.todo[0] in j.processed { MoveReverse(s, s', t, members); }
      else { EnsureReverse(s, t, j.todo[0], s'.threads[t], members); }
    case Fetched(_, ref) => if ArcFree(s, ref.arc) { AcquireReverse(s, t, ref.arc, s'.threads[t], members); }
    case Check(j, ref) => CheckReverse(s, t, j, ref, members);
    case Add(j, ref) => AddedReverse(s, t, j, ref, members);
    case Clean(_, _, stopped) =>
      if stopped == [] { MoveReverse(s, s', t, members); }
      else if ArcFree(s, stopped[0].arc) { AcquireReverse(s, t, stopped[0].arc, s'.threads[t], members); }
    case CleanHeld(_, _, ref, _) => CleanReverse(s, t, ref, s'.threads[t], members);
    case _ => MoveReverse(s, s', t, members);
  }

  // ------------------------------------------------------------------ monitor and monitor_scope

  lemma MonAddReverse(s: State, t: ThreadId, slot: Slot, ref: Ref, members: bool)
    requires Base(s) && Reverse(s, members) && t in s.threads && s.threads[t] == Monitoring(MonAdd(slot, ref))
    ensures Reverse(StepMonitor(s, t, MonAdd(slot, ref)), members)
  {
    hide SingleInv, RemovedInv, BackedInv, Base;
    ThreadLocated(s, t);
    assert Refers(s.threads[t], ref);
    var s' := StepMonitor(s, t, MonAdd(slot, ref));
    AddedSingle(s, t, ref, Slots(s, ref.arc) + {slot}, s');
    forall x, r | Records(s'.arcs, x, r) && !Records(s.arcs, x, r) ensures r == Reg(slot, ref.actor) {
    }
    BehavesKeeps(s, s', t, members);
  }

  lemma MonCheckReverse(s: State, t: ThreadId, slot: Slot, ref: Ref, members: bool)
    requires Base(s) && Reverse(s, members) && t in s.threads && s.threads[t] == Monitoring(MonCheck(slot, ref))
    ensures Reverse(StepMonitor(s, t, MonCheck(slot, ref)), members)
  {
    hide SingleInv, RemovedInv, BackedInv, Base;
    ThreadLocated(s, t);
    assert Refers(s.threads[t], ref);
    var s' := StepMonitor(s, t, MonCheck(slot, ref));
    if !Stopping(s, ref.actor) {
      CheckedSingle(s, t, ref, s'.threads[t]);
      BehavesKeeps(s, s', t, members);
    } else {
      ReleaseShrinks(s, ref.arc, Slots(s, ref.arc));
      MoveReverse(s, s', t, members);
    }
  }

  lemma StepMonitorReverse(s: State, t: ThreadId, members: bool)
    requires Base(s) && Reverse(s, members) && t in s.threads && s.threads[t].Monitoring?
    ensures Reverse(StepMonitor(s, t, s.threads[t].monitor), members)
  {
    hide Reverse, Base;
    var s' := StepMonitor(s, t, s.threads[t].monitor);
    match s.threads[t].monitor
    case MonStart(_, a) => EnsureReverse(s, t, a, s'.threads[t], members);
    case MonFetched(_, ref) => if ArcFree(s, ref.arc) { AcquireReverse(s, t, ref.arc, s'.threads[t], members); }
    case MonCheck(slot, ref) => MonCheckReverse(s, t, slot, ref, members);
    case MonAdd(slot, ref) => MonAddReverse(s, t, slot, ref, members);
    case MonClean(ref) => if ArcFree(s, ref.arc) { AcquireReverse(s, t, ref.arc, s'.threads[t], members); }
    case MonCleanHeld(ref) => CleanReverse(s, t, ref, s'.threads[t], members);
    case _ => MoveReverse(s, s', t, members);
  }

  // ------------------------------------------------------------------ leave_scoped

  /** The relations of an actor without an entry in the reverse index record nothing. */
  lemma UnlistedRecordsNothing(s: State, a: Actor)
    requires Base(s) && a !in s.relations
    ensures forall x, slot :: !Records(s.arcs, x, Reg(slot, a))
  {
    hide EntryInv, HolderInv, RefInv, AddInv, TakenInv, SensibleInv, ExistInv, CoverInv;
  }

  /** What relations do not record, no other relations of the same actor do. */
  lemma ReleasedRecordsNot(s: State, ref: Ref, slot: Slot)
    requires SingleInv(s.arcs, s.threads) && ValidRef(s.arcs, ref)
    ensures forall x :: !Records(ArcRelease(s, ref.arc, Slots(s, ref.arc) - {slot}).arcs, x, Reg(slot, ref.actor))
  {
  }

  lemma LeaveHeldReverse(s: State, t: ThreadId, key: Key, ref: Ref, todo: seq<Actor>, members: bool)
    requires Base(s) && Reverse(s, members) && t in s.threads && s.threads[t] == Leaving(LeaveHeld(key, ref, todo))
    ensures Reverse(StepLeave(s, t, LeaveHeld(key, ref, todo)), members)
  {
    hide SingleInv, RemovedInv, BackedInv, Base;
    ThreadLocated(s, t);
    assert Refers(s.threads[t], ref);
    ReleaseShrinks(s, ref.arc, Slots(s, ref.arc) - {Member(key)});
    ReleasedRecordsNot(s, ref, Member(key));
    MoveReverse(s, StepLeave(s, t, LeaveHeld(key, ref, todo)), t, members);
  }

  lemma LeaveRemoveReverse(s: State, t: ThreadId, key: Key, a: Actor, todo: seq<Actor>, members: bool)
    requires Reverse(s, members) && t in s.threads && s.threads[t] == Leaving(LeaveRemove(key, a, todo))
    ensures Reverse(StepLeave(s, t, LeaveRemove(key, a, todo)), members)
  {
    hide SingleInv, BackedInv;
    var s' := StepLeave(s, t, LeaveRemove(key, a, todo));
    assert Removes(s.threads[t], Reg(Member(key), a));
    ShrinkSingle(s, s', t);
    BehavesKeeps(s, s', t, members);
  }

  lemma StepLeaveReverse(s: State, t: ThreadId, members: bool)
    requires Base(s) && Reverse(s, members) && t in s.threads && s.threads[t].Leaving?
    ensures Reverse(StepLeave(s, t, s.threads[t].leave), members)
  {
    hide Reverse, Base;
    var s' := StepLeave(s, t, s.threads[t].leave);
    match s.threads[t].leave
    case LeaveLoop(_, todo) =>
      if todo != [] && todo[0] !in s.relations { UnlistedRecordsNothing(s, todo[0]); }
      MoveReverse(s, s', t, members);
    case LeaveFetched(_, ref, _) => if ArcFree(s, ref.arc) { AcquireReverse(s, t, ref.arc, s'.threads[t], members); }
    case LeaveHeld(key, ref, todo) => LeaveHeldReverse(s, t, key, ref, todo, members);
    case LeaveRemove(key, a, todo) => LeaveRemoveReverse(s, t, key, a, todo, members);
    case _ => MoveReverse(s, s', t, members);
  }

  // ------------------------------------------------------------------ demonitor and demonitor_scope

  lemma DemHeldReverse(s: State, t: ThreadId, slot: Slot, ref: Ref, members: bool)
    requires Base(s) && Reverse(s, members) && t in s.threads && s.threads[t] == Demonitoring(DemHeld(slot, ref))
    ensures Reverse(StepDemonitor(s, t, DemHeld(slot, ref)), members)
  {
    hide SingleInv, RemovedInv, BackedInv, Base;
    ThreadLocated(s, t);
    assert Refers(s.threads[t], ref);
    var s' := StepDemonitor(s, t, DemHeld(slot, ref));
    ReleaseShrinks(s, ref.arc, Slots(s, ref.arc) - {slot});
    ReleasedRecordsNot(s, ref, slot);
    DropOnly(s, Reg(slot, ref.actor));
    assert s'.arcs == ArcRelease(s, ref.arc, Slots(s, ref.arc) - {slot}).arcs;
    ShrinkSingle(s, s', t);
    BehavesKeeps(s, s', t, members);
  }

  lemma DropOnly(s: State, r: Reg)
    ensures forall q :: q in s.forward && q !in Drop(s, r).forward ==> q == r
    ensures Drop(s, r) == s.(forward := Drop(s, r).forward, entries := Drop(s, r).entries)
  {
  }

  lemma DemLockReverse(s: State, t: ThreadId, slot: Slot, a: Actor, members: bool)
    requires Base(s) && Reverse(s, members) && t in s.threads && s.threads[t] == Demonitoring(DemLock(slot, a, None))
    requires members || !Overtakes(s, Thread(t, Proceed))
    ensures Reverse(StepDemonitor(s, t, DemLock(slot, a, None)), members)
  {
    hide SingleInv, RemovedInv, BackedInv, Base, Drop;
    ThreadLocated(s, t);
    var s' := StepDemonitor(s, t, DemLock(slot, a, None));
    DropOnly(s, Reg(slot, a));
    if EntryOf(slot) !in s.locked {
      ShrinkSingle(s, s', t);
      BehavesKeeps(s, s', t, members);
    }
  }

  lemma StepDemonitorReverse(s: State, t: ThreadId, members: bool)
    requires Base(s) && Reverse(s, members) && t in s.threads && s.threads[t].Demonitoring?
    requires members || !Overtakes(s, Thread(t, Proceed))
    ensures Reverse(StepDemonitor(s, t, s.threads[t].dem), members)
  {
    hide Reverse, Base, Overtakes;
    var s' := StepDemonitor(s, t, s.threads[t].dem);
    match s.threads[t].dem
    case DemLock(slot, a, rel) =>
      if rel.None? { DemLockReverse(s, t, slot, a, members); } else { MoveReverse(s, s', t, members); }
    case DemFetched(_, ref) => if ArcFree(s, ref.arc) { AcquireReverse(s, t, ref.arc, s'.threads[t], members); }
    case DemHeld(slot, ref) => DemHeldReverse(s, t, slot, ref, members);
    case _ => MoveReverse(s, s', t, members);
  }

  // ------------------------------------------------------------------ shutdown

  /** A shutdown moves: it records nothing, and removes forward only what is not recorded. */
  lemma StopReverse(s: State, s': State, members: bool)
    requires Reverse(s, members) && Shrinks(s.arcs, s'.arcs) && s'.threads == s.threads
    requires forall x, r :: r in s.forward && r !in s'.forward && r.slot.Member? == members ==> !Records(s'.arcs, x, r)
    ensures Reverse(s', members)
  {
    hide SingleInv;
    ShrinkSingleStop(s, s');
    forall x, r | Records(s'.arcs, x, r) && r.slot.Member? == members ensures Backed(s'.forward, s'.threads, r) {
      assert Records(s.arcs, x, r);
      assert Backed(s.forward, s.threads, r);
    }
    assert forall x, r :: Records(s'.arcs, x, r) ==> Records(s.arcs, x, r);
  }

  /** What a shutdown has drained is recorded nowhere. */
  lemma DrainedIsUnrecorded(s: State, a: Actor, slot: Slot)
    requires Base(s) && ListsInv(s.stops) && a in s.stops && slot in Drained(s.stops[a])
    ensures forall x :: !Records(s.arcs, x, Reg(slot, a))
  {
    hide Base;
    RecordedIsUntaken(s);
  }

  lemma RecordedIsUntaken(s: State)
    requires Base(s)
    ensures forall x, r :: Records(s.arcs, x, r) && r.actor in s.stops ==> Untaken(s.stops[r.actor], r.slot, x)
  {
    hide EntryInv, HolderInv, RefInv, CurrentInv, AddInv, SensibleInv, ExistInv, CoverInv;
  }

  lemma DropsReverse(s: State, a: Actor, pick: Slot, members: bool)
    requires Base(s) && ListsInv(s.stops) && Reverse(s, members) && a in s.stops && pick in Drained(s.stops[a])
    ensures Reverse(StepStop(s, a, pick), members)
  {
    hide Base, Reverse, ListsInv, StepStop;
    DrainedIsUnrecorded(s, a, pick);
    DropsOne(s, a, pick);
    StopArcs(s, a, pick);
    StopForward(s, a, pick);
    StopReverse(s, StepStop(s, a, pick), members);
  }

  lemma DropsOne(s: State, a: Actor, pick: Slot)
    requires a in s.stops && pick in Drained(s.stops[a])
    ensures StepStop(s, a, pick).arcs == s.arcs
    ensures forall r :: r in s.forward && r !in StepStop(s, a, pick).forward ==> r == Reg(pick, a)
  {
    hide Drop, Prune, PruneIndex;
    DropOnly(s, Reg(pick, a));
    DropMemberOnly(s, Reg(pick, a));
  }

  lemma StepStopReverse(s: State, a: Actor, pick: Slot, members: bool)
    requires Base(s) && ListsInv(s.stops) && Reverse(s, members) && a in s.stops
    ensures Reverse(StepStop(s, a, pick), members)
  {
    hide Base, Reverse, ListsInv, StepStop;
    var s' := StepStop(s, a, pick);
    if pick in Drained(s.stops[a]) {
      DropsReverse(s, a, pick, members);
    } else {
      StopArcs(s, a, pick);
      StopForward(s, a, pick);
      StopReverse(s, s', members);
    }
  }

  lemma StopArcs(s: State, a: Actor, pick: Slot)
    requires a in s.stops
    ensures Shrinks(s.arcs, StepStop(s, a, pick).arcs)
  {
    hide Shrinks, Prune, PruneIndex, Drop, ArcRelease, ArcLock;
    SameShrinks(s.arcs);
    match s.stops[a]
    case LockMonitors(x) => LockShrinks(s, x, S(a));
    case LockMembers(x) => LockShrinks(s, x, S(a));
    case CleanLock(x) => LockShrinks(s, x, S(a));
    case TakeMonitors(x) => ReleaseShrinks(s, x, Slots(s, x) - set slot | slot in Slots(s, x) && Monitors(slot));
    case TakeMembers(x) => ReleaseShrinks(s, x, Slots(s, x) - set slot | slot in Slots(s, x) && !Monitors(slot));
    case CleanDo(x) => ReleaseShrinks(s, x, Slots(s, x));
    case DropMonitors(_) => DropOnly(s, Reg(pick, a));
    case DropMembers(_, _) => DropMemberOnly(s, Reg(pick, a));
    case _ =>
  }

  lemma StopForward(s: State, a: Actor, pick: Slot)
    requires a in s.stops
    ensures StepStop(s, a, pick).threads == s.threads
    ensures pick !in Drained(s.stops[a]) ==> StepStop(s, a, pick).forward == s.forward
  {
    hide Prune, PruneIndex, Drop;
    DropOnly(s, Reg(pick, a));
    DropMemberOnly(s, Reg(pick, a));
  }

  lemma SameShrinks(arcs: seq<Arc>)
    ensures Shrinks(arcs, arcs)
  {
  }

  lemma DropMemberOnly(s: State, r: Reg)
    ensures var s' := Prune(PruneIndex(s.(forward := s.forward - {r}), r.slot.key), EntryOf(r.slot));
            s' == s.(forward := s.forward - {r}, index := s'.index, entries := s'.entries)
  {
  }

  // ------------------------------------------------------------------ every run

  lemma NextReverse(s: State, e: Event, members: bool)
    requires Inv(s) && Exact(s) && Reverse(s, members) && (members || !Overtakes(s, e))
    ensures Reverse(Next(s, e), members)
  {
    hide IndexInv, EntriesInv, ListsInv, Base, CleanInv, Reverse;
    match e
    case Thread(t, choice) =>
      if t in s.threads {
        match s.threads[t]
        case Idle => if StepThread(s, t, choice) != s { MoveReverse(s, StepThread(s, t, choice), t, members); }
        case Joining(_) => StepJoinReverse(s, t, members);
        case Monitoring(_) => StepMonitorReverse(s, t, members);
        case Leaving(_) => StepLeaveReverse(s, t, members);
        case Demonitoring(_) => StepDemonitorReverse(s, t, members);
      }
    case Publish(a) => if a !in s.stops { StopReverse(s, Next(s, e), members); }
    case Shutdown(a, pick) => if a in s.stops { StepStopReverse(s, a, pick, members); }
  }

  /** No demonitor of the run overtakes a monitor. */
  ghost predicate Orderly(s: State, events: seq<Event>)
    decreases |events|
  {
    events == [] || (!Overtakes(s, events[0]) && Orderly(Next(s, events[0]), events[1..]))
  }

  lemma {:induction false} RunReverse(s: State, events: seq<Event>, members: bool)
    requires Inv(s) && Exact(s) && Reverse(s, members) && (members || Orderly(s, events))
    ensures Reverse(Run(s, events), members)
    decreases |events|
  {
    hide Inv, Exact, Reverse, Overtakes;
    if events != [] {
      NextInv(s, events[0]);
      NextExact(s, events[0]);
      NextReverse(s, events[0], members);
      RunReverse(Next(s, events[0]), events[1..], members);
    }
  }

  lemma InitReverse(threads: set<ThreadId>, members: bool)
    ensures Exact(Init(threads)) && Reverse(Init(threads), members)
  {
  }

  /** The reverse index lists the relationship. */
  predicate Lists(s: State, r: Reg)
  {
    r.actor in s.relations && s.relations[r.actor] < |s.arcs| && r.slot in s.arcs[s.relations[r.actor]].slots
  }

  /** With no operation in flight, a relationship that no shutdown has drained is in the
      reverse index exactly if it is recorded forward. */
  ghost predicate Agrees(s: State, members: bool)
  {
    forall r: Reg :: r.slot.Member? == members && !(r.actor in s.stops && r.slot in Drained(s.stops[r.actor])) ==>
      (r in s.forward <==> Lists(s, r))
  }

  predicate Quiet(s: State) { forall t :: t in s.threads ==> s.threads[t].Idle? }

  lemma QuietAgrees(s: State, members: bool)
    requires Inv(s) && Reverse(s, members) && Quiet(s)
    ensures Agrees(s, members)
  {
    hide Base, CleanInv, SingleInv, RemovedInv;
    CoverOf(s);
    RelationsValid(s);
    forall r: Reg | r.slot.Member? == members && !(r.actor in s.stops && r.slot in Drained(s.stops[r.actor]))
      ensures r in s.forward <==> Lists(s, r)
    {
      if Lists(s, r) {
        assert Records(s.arcs, s.relations[r.actor], r);
        assert Backed(s.forward, s.threads, r);
      }
    }
  }

  /** In every run, whenever no operation is in flight, the memberships forward and in the
      reverse index are the same, but for what a shutdown has taken and not yet removed. */
  lemma MembersAgree(threads: set<ThreadId>, events: seq<Event>)
    ensures var s := Run(Init(threads), events);
            Quiet(s) ==> Agrees(s, true)
  {
    hide Inv, Exact, Reverse, Agrees, Quiet;
    InitInv(threads);
    InitReverse(threads, true);
    RunInv(Init(threads), events);
    RunReverse(Init(threads), events, true);
    if Quiet(Run(Init(threads), events)) { QuietAgrees(Run(Init(threads), events), true); }
  }

  /** So are the listeners, in every run in which no demonitor overtakes a monitor. */
  lemma ListenersAgree(threads: set<ThreadId>, events: seq<Event>)
    requires Orderly(Init(threads), events)
    ensures var s := Run(Init(threads), events);
            Quiet(s) ==> Agrees(s, false)
  {
    hide Inv, Exact, Reverse, Agrees, Quiet, Orderly;
    InitInv(threads);
    InitReverse(threads, false);
    RunInv(Init(threads), events);
    RunReverse(Init(threads), events, false);
    if Quiet(Run(Init(threads), events)) { QuietAgrees(Run(Init(threads), events), false); }
  }

  /** Overtaking is the only way a step leaves a recorded listener without its forward entry. */
  lemma ListenersStayIff(s: State, e: Event)
    requires Inv(s) && Exact(s) && Reverse(s, false)
    ensures var s' := Next(s, e);
            BackedInv(s'.forward, s'.arcs, s'.threads, false) <==> !Overtakes(s, e)
  {
    hide Inv, Exact, BackedInv;
    if Overtakes(s, e) {
      OvertakenIsUnbacked(s, e);
    } else {
      NextReverse(s, e, false);
    }
  }

  lemma OvertakenIsUnbacked(s: State, e: Event)
    requires Inv(s) && Overtakes(s, e)
    ensures var s' := Next(s, e);
            !BackedInv(s'.forward, s'.arcs, s'.threads, false)
  {
    hide Base, CleanInv;
    ThreadLocated(s, e.t);
    var dem := s.threads[e.t].dem;
    var r := Reg(dem.slot, dem.actor);
    var x :| Records(s.arcs, x, r);
    var s' := Next(s, e);
    ExistsForward(s, r);
    assert Records(s'.arcs, x, r) && r !in s'.forward;
    forall t | t in s'.threads ensures !Claims(s'.threads[t], r) {
    }
    assert !Backed(s'.forward, s'.threads, r);
  }

  lemma {:induction false} RunAppend(s: State, first: seq<Event>, second: seq<Event>)
    ensures Run(s, first + second) == Run(Run(s, first), second)
    decreases |first|
  {
    if first == [] {
      assert first + second == second;
    } else {
      assert (first + second)[1..] == first[1..] + second;
      RunAppend(Next(s, first[0]), first[1..], second);
    }
  }

  lemma RunThree(s: State, e: Event, f: Event, g: Event)
    ensures Run(s, [e, f, g]) == Next(Next(Next(s, e), f), g)
  {
    assert [e, f, g][1..] == [f, g] && [f, g][1..] == [g];
    assert Run(s, [e, f, g]) == Run(Next(s, e), [f, g]);
    assert Run(Next(s, e), [f, g]) == Run(Next(Next(s, e), f), [g]);
    RunOne(Next(Next(s, e), f), g);
  }

  lemma DemonitorReads(listener: Slot, a: Actor)
    requires !listener.Member?
    ensures var s := Run(Init({0, 1}), [Thread(0, BeginDemonitor(listener, a)), Thread(0, Proceed), Thread(1, BeginMonitor(listener, a))]);
            && s.threads == map[0 := Demonitoring(DemLock(listener, a, None)), 1 := Monitoring(MonStart(listener, a))]
            && s == Init({}).(threads := s.threads)
  {
    hide StepJoin, StepLeave, StepStop;
    RunThree(Init({0, 1}), Thread(0, BeginDemonitor(listener, a)), Thread(0, Proceed), Thread(1, BeginMonitor(listener, a)));
  }

  lemma MonitorLocks(s: State, listener: Slot, a: Actor)
    requires s == Init({}).(threads := s.threads)
    requires s.threads == map[0 := Demonitoring(DemLock(listener, a, None)), 1 := Monitoring(MonStart(listener, a))]
    ensures var s' := Run(s, [Thread(1, Proceed), Thread(1, Proceed), Thread(1, Proceed)]);
            && s'.threads == s.threads[1 := Monitoring(MonCheck(listener, Ref(a, 0)))]
            && s' == s.(threads := s'.threads, locked := map[EntryOf(listener) := 1], entries := {EntryOf(listener)},
                        relations := map[a := 0], arcs := [Arc(a, {}, Some(T(1)))])
  {
    hide Next;
    RunThree(s, Thread(1, Proceed), Thread(1, Proceed), Thread(1, Proceed));
    MonitorStarts(s, listener, a);
    var s1 := Next(s, Thread(1, Proceed));
    MonitorTakesEntry(s1, listener, Ref(a, 0));
    var s2 := Next(s1, Thread(1, Proceed));
    MonitorTakesRelations(s2, listener, a);
  }

  lemma MonitorStarts(s: State, listener: Slot, a: Actor)
    requires 1 in s.threads && s.threads[1] == Monitoring(MonStart(listener, a)) && s.relations == map[] && s.arcs == []
    ensures Next(s, Thread(1, Proceed))
         == s.(threads := s.threads[1 := Monitoring(MonLock(listener, Ref(a, 0)))], relations := map[a := 0], arcs := [Arc(a, {}, None)])
  {
    assert s.arcs + [Arc(a, {}, None)] == [Arc(a, {}, None)];
  }

  lemma MonitorTakesEntry(s: State, listener: Slot, ref: Ref)
    requires 1 in s.threads && s.threads[1] == Monitoring(MonLock(listener, ref)) && s.locked == map[] && s.entries == {}
    ensures Next(s, Thread(1, Proceed))
         == s.(threads := s.threads[1 := Monitoring(MonFetched(listener, ref))],
               locked := map[EntryOf(listener) := 1], entries := {EntryOf(listener)})
  {
    assert s.entries + {EntryOf(listener)} == {EntryOf(listener)};
  }

  lemma MonitorTakesRelations(s: State, listener: Slot, a: Actor)
    requires 1 in s.threads && s.threads[1] == Monitoring(MonFetched(listener, Ref(a, 0))) && s.arcs == [Arc(a, {}, None)]
    ensures Next(s, Thread(1, Proceed))
         == s.(threads := s.threads[1 := Monitoring(MonCheck(listener, Ref(a, 0)))], arcs := [Arc(a, {}, Some(T(1)))])
  {
    assert s.arcs[0 := Arc(a, {}, Some(T(1)))] == [Arc(a, {}, Some(T(1)))];
  }

  lemma MonitorAdds(s: State, listener: Slot, a: Actor)
    requires s.threads == map[0 := Demonitoring(DemLock(listener, a, None)), 1 := Monitoring(MonCheck(listener, Ref(a, 0)))]
    requires s == Init({}).(threads := s.threads, locked := map[EntryOf(listener) := 1], entries := {EntryOf(listener)},
                            relations := map[a := 0], arcs := [Arc(a, {}, Some(T(1)))])
    ensures var s' := Run(s, [Thread(1, Proceed), Thread(1, Proceed), Thread(1, Proceed)]);
            && s'.threads == s.threads[1 := Idle]
            && s' == s.(threads := s'.threads, locked := map[], forward := {Reg(listener, a)}, arcs := [Arc(a, {listener}, None)])
  {
    hide StepJoin, StepLeave, StepStop;
    RunThree(s, Thread(1, Proceed), Thread(1, Proceed), Thread(1, Proceed));
    var s1 := Next(s, Thread(1, Proceed));
    assert s1.threads[1] == Monitoring(MonAdd(listener, Ref(a, 0)));
    assert Slots(s1, 0) + {listener} == {listener};
    var s2 := Next(s1, Thread(1, Proceed));
    assert s2.locked == map[] && s2.forward == {Reg(listener, a)} && s2.arcs == [Arc(a, {listener}, None)];
  }

  /** A demonitor reads that the actor has no relations; a whole monitor runs; the demonitor
      removes the listener forward. Nothing is in flight, nobody is stopping, and the
      reverse index lists a listener that is not registered. */
  lemma OvertakenListener(listener: Slot, a: Actor) returns (events: seq<Event>)
    requires !listener.Member?
    ensures var s := Run(Init({0, 1}), events);
            && Quiet(s) && s.stops == map[]
            && Lists(s, Reg(listener, a)) && Reg(listener, a) !in s.forward
  {
    hide Run;
    var s0, go := Init({0, 1}), [Thread(1, Proceed), Thread(1, Proceed), Thread(1, Proceed)];
    var read := [Thread(0, BeginDemonitor(listener, a)), Thread(0, Proceed), Thread(1, BeginMonitor(listener, a))];
    DemonitorReads(listener, a);
    var s1 := Run(s0, read);
    MonitorLocks(s1, listener, a);
    var s2 := Run(s1, go);
    MonitorAdds(s2, listener, a);
    var s3 := Run(s2, go);
    RunAppend(s0, read, go);
    RunAppend(s0, read + go, go);
    RunAppend(s0, read + go + go, [Thread(0, Proceed)]);
    RunOne(s3, Thread(0, Proceed));
    events := read + go + go + [Thread(0, Proceed)];
  }

  lemma RunOne(s: State, e: Event)
    ensures Run(s, [e]) == Next(s, e)
  {
  }
}
