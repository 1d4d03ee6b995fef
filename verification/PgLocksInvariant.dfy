/**
 The invariant of the process-group protocol, and the primitive updates that keep it.
 */
module PgLocksInvariant {
  import opened Options
  import opened PgNames
  import opened PgLocks

  // ------------------------------------------------------------------ what a thread holds and owes

  function HeldEntry(pc: Pc): Option<Entry>
  {
    match pc
    case Joining(Loop(j)) => Some(GroupEntry(j.key))
    case Joining(Fetched(j, _)) => Some(GroupEntry(j.key))
    case Joining(Check(j, _)) => Some(GroupEntry(j.key))
    case Joining(Add(j, _)) => Some(GroupEntry(j.key))
    case Monitoring(MonFetched(slot, _)) => Some(EntryOf(slot))
    case Monitoring(MonCheck(slot, _)) => Some(EntryOf(slot))
    case Monitoring(MonAdd(slot, _)) => Some(EntryOf(slot))
    case Leaving(LeaveLoop(key, _)) => Some(GroupEntry(key))
    case Leaving(LeaveFetched(key, _, _)) => Some(GroupEntry(key))
    case Leaving(LeaveHeld(key, _, _)) => Some(GroupEntry(key))
    case Leaving(LeaveRemove(key, _, _)) => Some(GroupEntry(key))
    case Demonitoring(DemFetched(slot, _)) => Some(EntryOf(slot))
    case Demonitoring(DemHeld(slot, _)) => Some(EntryOf(slot))
    case _ => None
  }

  function Defaulted(pc: Pc): Option<Entry>
  {
    if pc.Joining? || pc.Monitoring? then HeldEntry(pc) else None
  }

  function HeldRef(pc: Pc): Option<Ref>
  {
    match pc
    case Joining(Check(_, ref)) => Some(ref)
    case Joining(Add(_, ref)) => Some(ref)
    case Joining(CleanHeld(_, _, ref, _)) => Some(ref)
    case Monitoring(MonCheck(_, ref)) => Some(ref)
    case Monitoring(MonAdd(_, ref)) => Some(ref)
    case Monitoring(MonCleanHeld(ref)) => Some(ref)
    case Leaving(LeaveHeld(_, ref, _)) => Some(ref)
    case Demonitoring(DemHeld(_, ref)) => Some(ref)
    case _ => None
  }

  /** The relations a thread has a reference to. */
  ghost predicate Refers(pc: Pc, ref: Ref)
  {
    match pc
    case Joining(Loop(j)) => ref in j.stopped
    case Joining(Fetched(j, r)) => ref == r || ref in j.stopped
    case Joining(Check(j, r)) => ref == r || ref in j.stopped
    case Joining(Add(j, r)) => ref == r || ref in j.stopped
    case Joining(Clean(_, _, stopped)) => ref in stopped
    case Joining(CleanHeld(_, _, r, stopped)) => ref == r || ref in stopped
    case Monitoring(MonLock(_, r)) => ref == r
    case Monitoring(MonFetched(_, r)) => ref == r
    case Monitoring(MonCheck(_, r)) => ref == r
    case Monitoring(MonAdd(_, r)) => ref == r
    case Monitoring(MonAfter(_, r)) => ref == r
    case Monitoring(MonPrune(_, r)) => ref == r
    case Monitoring(MonClean(r)) => ref == r
    case Monitoring(MonCleanHeld(r)) => ref == r
    case Leaving(LeaveFetched(_, r, _)) => ref == r
    case Leaving(LeaveHeld(_, r, _)) => ref == r
    case Demonitoring(DemLock(_, a, rel)) => rel == Some(ref.arc) && ref.actor == a
    case Demonitoring(DemFetched(_, r)) => ref == r
    case Demonitoring(DemHeld(_, r)) => ref == r
    case _ => false
  }

  /** The status check has passed and the relationship is about to be recorded. */
  function Adding(pc: Pc): Option<Ref>
  {
    match pc
    case Joining(Add(_, ref)) => Some(ref)
    case Monitoring(MonAdd(_, ref)) => Some(ref)
    case _ => None
  }

  /** Memberships recorded in the reverse index and about to be recorded forward. */
  ghost predicate Claims(pc: Pc, r: Reg)
  {
    match pc
    case Joining(Loop(j)) => r in Claimed(j)
    case Joining(Fetched(j, _)) => r in Claimed(j)
    case Joining(Check(j, _)) => r in Claimed(j)
    case Joining(Add(j, _)) => r in Claimed(j)
    case _ => false
  }

  /** A membership already removed from the reverse index and about to be removed forward. */
  predicate Removes(pc: Pc, r: Reg)
  {
    pc.Leaving? && pc.leave.LeaveRemove? && r == Reg(Member(pc.leave.key), pc.leave.actor)
  }

  /** The thread only cleans up relations of actors that are stopping, and only ever
      monitors listener slots. */
  ghost predicate Sensible(pc: Pc, stops: map<Actor, StopPc>)
  {
    match pc
    case Joining(Loop(j)) => AllStopping(j.stopped, stops)
    case Joining(Fetched(j, _)) => AllStopping(j.stopped, stops)
    case Joining(Check(j, _)) => AllStopping(j.stopped, stops)
    case Joining(Add(j, _)) => AllStopping(j.stopped, stops)
    case Joining(Clean(_, _, stopped)) => AllStopping(stopped, stops)
    case Joining(CleanHeld(_, _, r, stopped)) => AllStopping(stopped, stops) && r.actor in stops
    case Monitoring(MonStart(slot, _)) => !slot.Member?
    case Monitoring(MonLock(slot, _)) => !slot.Member?
    case Monitoring(MonFetched(slot, _)) => !slot.Member?
    case Monitoring(MonCheck(slot, _)) => !slot.Member?
    case Monitoring(MonAdd(slot, _)) => !slot.Member?
    case Monitoring(MonAfter(slot, _)) => !slot.Member?
    case Monitoring(MonPrune(slot, r)) => !slot.Member? && r.actor in stops
    case Monitoring(MonClean(r)) => r.actor in stops
    case Monitoring(MonCleanHeld(r)) => r.actor in stops
    case Demonitoring(DemStart(slot, _)) => !slot.Member?
    case Demonitoring(DemLock(slot, _, _)) => !slot.Member?
    case Demonitoring(DemFetched(slot, _)) => !slot.Member?
    case Demonitoring(DemHeld(slot, _)) => !slot.Member?
    case _ => true
  }

  ghost predicate AllStopping(refs: seq<Ref>, stops: map<Actor, StopPc>)
  {
    forall r :: r in refs ==> r.actor in stops
  }

  /** The thread will try to remove these relations from the reverse index if their actor
      is stopping. */
  ghost predicate WillClean(pc: Pc, ref: Ref)
  {
    match pc
    case Joining(Loop(j)) => ref in j.stopped
    case Joining(Fetched(j, r)) => ref == r || ref in j.stopped
    case Joining(Check(j, r)) => ref == r || ref in j.stopped
    case Joining(Add(j, _)) => ref in j.stopped
    case Joining(Clean(_, _, stopped)) => ref in stopped
    case Joining(CleanHeld(_, _, r, stopped)) => ref == r || ref in stopped
    case Monitoring(MonLock(_, r)) => ref == r
    case Monitoring(MonFetched(_, r)) => ref == r
    case Monitoring(MonCheck(_, r)) => ref == r
    case Monitoring(MonAdd(_, r)) => ref == r
    case Monitoring(MonAfter(_, r)) => ref == r
    case Monitoring(MonPrune(_, r)) => ref == r
    case Monitoring(MonClean(r)) => ref == r
    case Monitoring(MonCleanHeld(r)) => ref == r
    case _ => false
  }

  // ------------------------------------------------------------------ what a shutdown holds and owes

  function StopHeld(pc: StopPc): Option<ArcId>
  {
    match pc
    case TakeMonitors(x) => Some(x)
    case TakeMembers(x) => Some(x)
    case CleanDo(x) => Some(x)
    case _ => None
  }

  function StopRefers(pc: StopPc): Option<ArcId>
  {
    match pc
    case LockMonitors(x) => Some(x)
    case TakeMonitors(x) => Some(x)
    case LockMembers(x) => Some(x)
    case TakeMembers(x) => Some(x)
    case DropMembers(x, _) => Some(x)
    case CleanLock(x) => Some(x)
    case CleanDo(x) => Some(x)
    case _ => None
  }

  /** The relationships taken from the reverse index and still to be removed forward. */
  function Drained(pc: StopPc): set<Slot>
  {
    match pc
    case DropMonitors(slots) => slots
    case DropMembers(_, slots) => slots
    case _ => {}
  }

  /** A relationship that relations x of a stopping actor may still record: the shutdown
      has not taken it, and will look for it in x. */
  predicate Untaken(pc: StopPc, slot: Slot, x: ArcId)
  {
    match pc
    case GetMonitors => true
    case LockMonitors(y) => x == y
    case TakeMonitors(y) => x == y
    case DropMonitors(_) => slot.Member?
    case GetMembers => slot.Member?
    case LockMembers(y) => slot.Member? && x == y
    case TakeMembers(y) => slot.Member? && x == y
    case _ => false
  }

  /** The shutdown will still try to remove relations x from the reverse index. */
  predicate StopWillClean(pc: StopPc, x: ArcId)
  {
    match pc
    case GetMonitors => true
    case LockMonitors(_) => true
    case TakeMonitors(_) => true
    case DropMonitors(_) => true
    case GetMembers => true
    case LockMembers(y) => x == y
    case TakeMembers(y) => x == y
    case DropMembers(y, _) => x == y
    case CleanLock(y) => x == y
    case CleanDo(y) => x == y
    case Done => false
  }

  // ------------------------------------------------------------------ the invariant

  /** The relations object exists and belongs to the actor. */
  predicate ValidRef(arcs: seq<Arc>, ref: Ref)
  {
    ref.arc < |arcs| && arcs[ref.arc].owner == ref.actor
  }

  ghost predicate EntryInv(locked: map<Entry, ThreadId>, threads: map<ThreadId, Pc>)
  {
    forall t :: t in threads && HeldEntry(threads[t]).Some? ==>
      var e := HeldEntry(threads[t]).value; e in locked && locked[e] == t
  }

  ghost predicate HolderInv(arcs: seq<Arc>, threads: map<ThreadId, Pc>, stops: map<Actor, StopPc>)
  {
    && (forall t :: t in threads && HeldRef(threads[t]).Some? ==>
          var x := HeldRef(threads[t]).value.arc; x < |arcs| && arcs[x].holder == Some(T(t)))
    && (forall a :: a in stops && StopHeld(stops[a]).Some? ==>
          var x := StopHeld(stops[a]).value; x < |arcs| && arcs[x].holder == Some(S(a)))
  }

  ghost predicate RefInv(arcs: seq<Arc>, relations: map<Actor, ArcId>, threads: map<ThreadId, Pc>, stops: map<Actor, StopPc>)
  {
    && (forall t, ref :: t in threads && Refers(threads[t], ref) ==> ValidRef(arcs, ref))
    && (forall a :: a in stops && StopRefers(stops[a]).Some? ==> ValidRef(arcs, Ref(a, StopRefers(stops[a]).value)))
    && (forall a :: a in relations ==> ValidRef(arcs, Ref(a, relations[a])))
  }

  /** Only the relations in the reverse index record anything, and those of a live actor
      are there. */
  ghost predicate CurrentInv(arcs: seq<Arc>, relations: map<Actor, ArcId>, stops: map<Actor, StopPc>)
  {
    forall x :: 0 <= x < |arcs| ==>
      var a := arcs[x].owner;
      (a in relations && relations[a] == x) || (arcs[x].slots == {} && a in stops)
  }

  /** While a thread records a relationship, a shutdown of the actor waits for it. */
  ghost predicate AddInv(relations: map<Actor, ArcId>, threads: map<ThreadId, Pc>, stops: map<Actor, StopPc>)
  {
    forall t :: t in threads && Adding(threads[t]).Some? ==>
      var ref := Adding(threads[t]).value;
      && ref.actor in relations && relations[ref.actor] == ref.arc
      && (ref.actor in stops ==> stops[ref.actor] == GetMonitors || stops[ref.actor] == LockMonitors(ref.arc))
  }

  ghost predicate TakenInv(arcs: seq<Arc>, stops: map<Actor, StopPc>)
  {
    forall x, slot :: 0 <= x < |arcs| && slot in arcs[x].slots && arcs[x].owner in stops ==>
      Untaken(stops[arcs[x].owner], slot, x)
  }

  ghost predicate SensibleInv(threads: map<ThreadId, Pc>, stops: map<Actor, StopPc>)
  {
    forall t :: t in threads ==> Sensible(threads[t], stops)
  }

  /** A recorded relationship is in an existing entry, and an entry taken with
      `or_default` exists as long as it is held. */
  ghost predicate ExistInv(forward: set<Reg>, entries: set<Entry>, threads: map<ThreadId, Pc>)
  {
    && (forall r :: r in forward ==> EntryOf(r.slot) in entries)
    && (forall t :: t in threads && Defaulted(threads[t]).Some? ==> Defaulted(threads[t]).value in entries)
  }

  /** In the reverse index, or drained from it by the shutdown. */
  ghost predicate Known(arcs: seq<Arc>, relations: map<Actor, ArcId>, stops: map<Actor, StopPc>, r: Reg)
  {
    || (r.actor in relations && relations[r.actor] < |arcs| && r.slot in arcs[relations[r.actor]].slots)
    || (r.actor in stops && r.slot in Drained(stops[r.actor]))
  }

  ghost predicate CoverInv(forward: set<Reg>, arcs: seq<Arc>, relations: map<Actor, ArcId>,
                           threads: map<ThreadId, Pc>, stops: map<Actor, StopPc>)
  {
    && (forall r :: r in forward ==>
          Known(arcs, relations, stops, r) || exists t :: t in threads && Removes(threads[t], r))
    && (forall t, r :: t in threads && Claims(threads[t], r) ==> Known(arcs, relations, stops, r))
  }

  /** The relations of a stopping actor are on somebody's list for removal. */
  ghost predicate CleanInv(relations: map<Actor, ArcId>, threads: map<ThreadId, Pc>, stops: map<Actor, StopPc>)
  {
    forall a :: a in relations && a in stops ==>
      StopWillClean(stops[a], relations[a]) || exists t :: t in threads && WillClean(threads[t], Ref(a, relations[a]))
  }

  ghost predicate Base(s: State)
  {
    && EntryInv(s.locked, s.threads)
    && HolderInv(s.arcs, s.threads, s.stops)
    && RefInv(s.arcs, s.relations, s.threads, s.stops)
    && CurrentInv(s.arcs, s.relations, s.stops)
    && AddInv(s.relations, s.threads, s.stops)
    && TakenInv(s.arcs, s.stops)
    && SensibleInv(s.threads, s.stops)
    && ExistInv(s.forward, s.entries, s.threads)
    && CoverInv(s.forward, s.arcs, s.relations, s.threads, s.stops)
  }

  ghost predicate Inv(s: State)
  {
    Base(s) && CleanInv(s.relations, s.threads, s.stops)
  }

  // ------------------------------------------------------------------ primitive updates

  /** Everything that thread t being at position pc claims about the rest of the state. */
  ghost predicate Located(s: State, t: ThreadId, pc: Pc)
  {
    && (HeldEntry(pc).Some? ==> HeldEntry(pc).value in s.locked && s.locked[HeldEntry(pc).value] == t)
    && (Defaulted(pc).Some? ==> Defaulted(pc).value in s.entries)
    && (HeldRef(pc).Some? ==>
          HeldRef(pc).value.arc < |s.arcs| && s.arcs[HeldRef(pc).value.arc].holder == Some(T(t)))
    && (forall ref :: Refers(pc, ref) ==> ValidRef(s.arcs, ref))
    && (Adding(pc).Some? ==>
          var ref := Adding(pc).value;
          && ref.actor in s.relations && s.relations[ref.actor] == ref.arc
          && (ref.actor in s.stops ==> s.stops[ref.actor] == GetMonitors || s.stops[ref.actor] == LockMonitors(ref.arc)))
    && Sensible(pc, s.stops)
    && (forall r :: Claims(pc, r) ==> Known(s.arcs, s.relations, s.stops, r))
  }

  lemma ThreadLocated(s: State, t: ThreadId)
    requires Base(s) && t in s.threads
    ensures Located(s, t, s.threads[t])
  {
  }

  /** No other thread holds an entry that this thread holds or that is free. */
  lemma EntryExclusive(s: State, t: ThreadId, e: Entry)
    requires Base(s) && (e !in s.locked || s.locked[e] == t)
    ensures forall u :: u in s.threads && u != t ==> HeldEntry(s.threads[u]) != Some(e)
    ensures e !in s.locked ==> forall u :: u in s.threads ==> HeldEntry(s.threads[u]) != Some(e)
  {
  }

  /** The relations of an actor that is not stopping are those in the reverse index. */
  lemma LiveIsCurrent(s: State, ref: Ref)
    requires Base(s) && ValidRef(s.arcs, ref) && ref.actor !in s.stops
    ensures ref.actor in s.relations && s.relations[ref.actor] == ref.arc
  {
  }

  /** The shutdown will come to relations that still record something. */
  lemma NonEmptyIsOwed(s: State, ref: Ref)
    requires Base(s) && ValidRef(s.arcs, ref) && ref.actor in s.stops && Slots(s, ref.arc) != {}
    ensures StopWillClean(s.stops[ref.actor], ref.arc)
  {
    var slot :| slot in s.arcs[ref.arc].slots;
    assert Untaken(s.stops[ref.actor], slot, ref.arc);
  }

  /** Moving one thread, with everything its new position claims already true. */
  lemma MoveBase(s: State, t: ThreadId, pc: Pc)
    requires Base(s) && t in s.threads && Located(s, t, pc)
    requires forall r :: Removes(s.threads[t], r) ==> Removes(pc, r) || r !in s.forward
    ensures Base(At(s, t, pc))
  {
    var s' := At(s, t, pc);
    forall r | r in s.forward
      ensures Known(s'.arcs, s'.relations, s'.stops, r) || exists u :: u in s'.threads && Removes(s'.threads[u], r)
    {
      if !Known(s.arcs, s.relations, s.stops, r) {
        var u :| u in s.threads && Removes(s.threads[u], r);
        assert Removes(s'.threads[u], r);
      }
    }
  }

  lemma LockBase(s: State, t: ThreadId, e: Entry)
    requires Base(s) && e !in s.locked
    ensures Base(Lock(s, t, e)) && Base(Touch(s, e)) && Base(Lock(Touch(s, e), t, e))
  {
  }

  lemma UnlockBase(s: State, e: Entry)
    requires Base(s)
    requires forall t :: t in s.threads ==> HeldEntry(s.threads[t]) != Some(e)
    ensures Base(Unlock(s, e))
  {
    hide HolderInv, RefInv, CurrentInv, AddInv, TakenInv, SensibleInv, ExistInv, CoverInv;
  }

  /** Nobody is at a position that holds these relations. */
  ghost predicate Unheld(s: State, x: ArcId)
  {
    && (forall t :: t in s.threads && HeldRef(s.threads[t]).Some? ==> HeldRef(s.threads[t]).value.arc != x)
    && (forall a :: a in s.stops ==> StopHeld(s.stops[a]) != Some(x))
  }

  /** Taking or releasing the mutex of relations whose contents do not change. */
  lemma HolderBase(s: State, x: ArcId, holder: Option<Proc>)
    requires Base(s) && x < |s.arcs| && Unheld(s, x)
    ensures Base(SetArc(s, x, s.arcs[x].(holder := holder)))
  {
    var s' := SetArc(s, x, s.arcs[x].(holder := holder));
    assert forall y :: 0 <= y < |s.arcs| ==> s'.arcs[y].slots == s.arcs[y].slots && s'.arcs[y].owner == s.arcs[y].owner;
    assert forall y :: 0 <= y < |s.arcs| && y != x ==> s'.arcs[y] == s.arcs[y];
    assert forall ref :: ValidRef(s.arcs, ref) ==> ValidRef(s'.arcs, ref);
    assert forall r :: Known(s.arcs, s.relations, s.stops, r) ==> Known(s'.arcs, s'.relations, s'.stops, r);
  }

  /** What one relations object may record instead of what it does. */
  ghost predicate MayRecord(s: State, x: ArcId, slots: set<Slot>)
    requires x < |s.arcs|
  {
    var a := s.arcs[x].owner;
    && (slots != {} ==> a in s.relations && s.relations[a] == x)
    && (a in s.stops ==> forall slot :: slot in slots ==> Untaken(s.stops[a], slot, x))
    && (forall slot :: slot in s.arcs[x].slots && slot !in slots ==>
          && (Reg(slot, a) in s.forward ==> exists t :: t in s.threads && Removes(s.threads[t], Reg(slot, a)))
          && (forall t :: t in s.threads ==> !Claims(s.threads[t], Reg(slot, a))))
  }

  lemma ContentsKnown(s: State, x: ArcId, slots: set<Slot>)
    requires Base(s) && x < |s.arcs|
    ensures var s' := SetArc(s, x, s.arcs[x].(slots := slots));
            && (forall ref :: ValidRef(s.arcs, ref) ==> ValidRef(s'.arcs, ref))
            && (forall r :: Known(s.arcs, s.relations, s.stops, r) ==>
                  Known(s'.arcs, s.relations, s.stops, r) || (r.actor == s.arcs[x].owner && r.slot in s.arcs[x].slots - slots))
  {
    hide EntryInv, HolderInv, CurrentInv, AddInv, TakenInv, SensibleInv, ExistInv, CoverInv;
  }

  lemma ContentsCover(s: State, x: ArcId, slots: set<Slot>)
    requires Base(s) && x < |s.arcs| && MayRecord(s, x, slots)
    ensures var s' := SetArc(s, x, s.arcs[x].(slots := slots));
            CoverInv(s'.forward, s'.arcs, s'.relations, s'.threads, s'.stops)
  {
    hide EntryInv, HolderInv, RefInv, CurrentInv, AddInv, TakenInv, SensibleInv, ExistInv, Known;
    var s' := SetArc(s, x, s.arcs[x].(slots := slots));
    ContentsKnown(s, x, slots);
    forall r | r in s.forward
      ensures Known(s'.arcs, s'.relations, s'.stops, r) || exists u :: u in s'.threads && Removes(s'.threads[u], r)
    {
      assert r == Reg(r.slot, r.actor);
    }
    forall t, r | t in s.threads && Claims(s.threads[t], r)
      ensures Known(s'.arcs, s'.relations, s'.stops, r)
    {
      assert r == Reg(r.slot, r.actor);
    }
  }

  lemma ContentsRefs(s: State, x: ArcId, slots: set<Slot>)
    requires Base(s) && x < |s.arcs|
    ensures var s' := SetArc(s, x, s.arcs[x].(slots := slots));
            HolderInv(s'.arcs, s'.threads, s'.stops) && RefInv(s'.arcs, s'.relations, s'.threads, s'.stops)
  {
    hide EntryInv, CurrentInv, AddInv, TakenInv, SensibleInv, ExistInv, CoverInv;
    var s' := SetArc(s, x, s.arcs[x].(slots := slots));
    assert forall y :: 0 <= y < |s.arcs| ==> s'.arcs[y].holder == s.arcs[y].holder;
    assert forall ref :: ValidRef(s.arcs, ref) ==> ValidRef(s'.arcs, ref);
  }

  lemma ContentsRecords(s: State, x: ArcId, slots: set<Slot>)
    requires Base(s) && x < |s.arcs| && MayRecord(s, x, slots)
    ensures var s' := SetArc(s, x, s.arcs[x].(slots := slots));
            CurrentInv(s'.arcs, s'.relations, s'.stops) && TakenInv(s'.arcs, s'.stops)
  {
    hide EntryInv, HolderInv, RefInv, AddInv, SensibleInv, ExistInv, CoverInv;
    var s' := SetArc(s, x, s.arcs[x].(slots := slots));
    assert forall y :: 0 <= y < |s.arcs| && y != x ==> s'.arcs[y] == s.arcs[y];
  }

  /** Changing the contents of relations nobody is holding. */
  lemma ContentsBase(s: State, x: ArcId, slots: set<Slot>)
    requires Base(s) && x < |s.arcs| && MayRecord(s, x, slots)
    ensures var s' := SetArc(s, x, s.arcs[x].(slots := slots));
            && Base(s')
            && (forall ref :: ValidRef(s.arcs, ref) ==> ValidRef(s'.arcs, ref))
            && (forall r :: Known(s.arcs, s.relations, s.stops, r) ==>
                  Known(s'.arcs, s.relations, s.stops, r) || (r.actor == s.arcs[x].owner && r.slot in s.arcs[x].slots - slots))
  {
    hide EntryInv, HolderInv, RefInv, CurrentInv, AddInv, TakenInv, SensibleInv, ExistInv, CoverInv, Known, ValidRef, MayRecord;
    ContentsKnown(s, x, slots);
    ContentsRefs(s, x, slots);
    ContentsRecords(s, x, slots);
    ContentsCover(s, x, slots);
  }

  /** Creating the relations of an actor that has none. */
  lemma EnsureRefs(s: State, a: Actor)
    requires Base(s)
    ensures ValidRef(Ensure(s, a).arcs, Ref(a, Relations(s, a)))
    ensures Ensure(s, a).relations == s.relations[a := Relations(s, a)]
    ensures forall ref :: ValidRef(s.arcs, ref) ==> ValidRef(Ensure(s, a).arcs, ref)
    ensures var s' := Ensure(s, a);
            HolderInv(s'.arcs, s'.threads, s'.stops) && RefInv(s'.arcs, s'.relations, s'.threads, s'.stops)
  {
    var s' := Ensure(s, a);
    if a !in s.relations {
      assert forall y :: 0 <= y < |s.arcs| ==> s'.arcs[y] == s.arcs[y];
      assert forall ref :: ValidRef(s.arcs, ref) ==> ValidRef(s'.arcs, ref);
    } else {
      assert s.relations == s.relations[a := Relations(s, a)];
    }
  }

  lemma EnsureRecords(s: State, a: Actor)
    requires Base(s)
    ensures var s' := Ensure(s, a);
            && CurrentInv(s'.arcs, s'.relations, s'.stops)
            && AddInv(s'.relations, s'.threads, s'.stops)
            && TakenInv(s'.arcs, s'.stops)
            && CoverInv(s'.forward, s'.arcs, s'.relations, s'.threads, s'.stops)
  {
    var s' := Ensure(s, a);
    if a !in s.relations {
      assert forall y :: 0 <= y < |s.arcs| ==> s'.arcs[y] == s.arcs[y];
      assert forall r :: Known(s.arcs, s.relations, s.stops, r) ==> Known(s'.arcs, s'.relations, s'.stops, r);
    }
  }

  lemma EnsureBase(s: State, a: Actor)
    requires Base(s)
    ensures Base(Ensure(s, a)) && ValidRef(Ensure(s, a).arcs, Ref(a, Relations(s, a)))
    ensures Ensure(s, a).relations == s.relations[a := Relations(s, a)]
    ensures forall ref :: ValidRef(s.arcs, ref) ==> ValidRef(Ensure(s, a).arcs, ref)
  {
    EnsureRefs(s, a);
    EnsureRecords(s, a);
    hide EntryInv, HolderInv, RefInv, CurrentInv, AddInv, TakenInv, SensibleInv, ExistInv, CoverInv;
  }

  /** Removing empty relations of a stopping actor from the reverse index. */
  lemma ForgetBase(s: State, a: Actor)
    requires Base(s) && a in s.relations && a in s.stops
    requires s.relations[a] < |s.arcs| && s.arcs[s.relations[a]].slots == {}
    requires forall t :: t in s.threads && Adding(s.threads[t]).Some? ==> Adding(s.threads[t]).value.actor != a
    ensures Base(s.(relations := s.relations - {a}))
  {
    hide EntryInv, HolderInv, TakenInv, SensibleInv, ExistInv;
    var s' := s.(relations := s.relations - {a});
    assert forall r :: Known(s.arcs, s.relations, s.stops, r) ==> Known(s'.arcs, s'.relations, s'.stops, r);
  }

  /** Recording known relationships forward in an existing entry. */
  lemma RecordBase(s: State, rs: set<Reg>)
    requires Base(s)
    requires forall r :: r in rs ==> Known(s.arcs, s.relations, s.stops, r) && EntryOf(r.slot) in s.entries
    ensures Base(s.(forward := s.forward + rs))
  {
    hide EntryInv, HolderInv, RefInv, CurrentInv, AddInv, TakenInv, SensibleInv;
  }

  lemma UnrecordBase(s: State, r: Reg)
    requires Base(s)
    ensures Base(s.(forward := s.forward - {r}))
  {
    hide EntryInv, HolderInv, RefInv, CurrentInv, AddInv, TakenInv, SensibleInv;
  }

  lemma PruneBase(s: State, e: Entry)
    requires Base(s)
    requires forall t :: t in s.threads ==> HeldEntry(s.threads[t]) != Some(e)
    ensures Base(Prune(s, e))
  {
    hide EntryInv, HolderInv, RefInv, CurrentInv, AddInv, TakenInv, SensibleInv, CoverInv;
  }

  lemma DropBase(s: State, r: Reg)
    requires Base(s)
    requires forall t :: t in s.threads ==> HeldEntry(s.threads[t]) != Some(EntryOf(r.slot))
    ensures Base(Drop(s, r)) && r !in Drop(s, r).forward
  {
    UnrecordBase(s, r);
    PruneBase(s.(forward := s.forward - {r}), EntryOf(r.slot));
  }

  /** Everything that the shutdown of an actor being at position pc claims. */
  ghost predicate StopLocated(s: State, a: Actor, pc: StopPc)
  {
    && (StopHeld(pc).Some? ==> StopHeld(pc).value < |s.arcs| && s.arcs[StopHeld(pc).value].holder == Some(S(a)))
    && (StopRefers(pc).Some? ==> ValidRef(s.arcs, Ref(a, StopRefers(pc).value)))
    && (forall x, slot :: 0 <= x < |s.arcs| && s.arcs[x].owner == a && slot in s.arcs[x].slots ==> Untaken(pc, slot, x))
    && (forall t :: t in s.threads && Adding(s.threads[t]).Some? && Adding(s.threads[t]).value.actor == a ==>
          pc == GetMonitors || pc == LockMonitors(Adding(s.threads[t]).value.arc))
  }

  lemma ShutdownLocated(s: State, a: Actor)
    requires Base(s) && a in s.stops
    ensures StopLocated(s, a, s.stops[a])
  {
  }

  /** Moving one shutdown, or starting one. */
  lemma StopKeeps(s: State, a: Actor, pc: StopPc)
    requires Base(s) && StopLocated(s, a, pc)
    ensures var s' := Stop(s, a, pc);
            && HolderInv(s'.arcs, s'.threads, s'.stops)
            && RefInv(s'.arcs, s'.relations, s'.threads, s'.stops)
            && CurrentInv(s'.arcs, s'.relations, s'.stops)
            && AddInv(s'.relations, s'.threads, s'.stops)
            && TakenInv(s'.arcs, s'.stops)
  {
  }

  lemma StopSensible(s: State, a: Actor, pc: StopPc)
    requires Base(s)
    ensures SensibleInv(s.threads, Stop(s, a, pc).stops)
  {
    forall t | t in s.threads
      ensures Sensible(s.threads[t], Stop(s, a, pc).stops)
    {
      assert Sensible(s.threads[t], s.stops);
    }
  }

  lemma StopCovers(s: State, a: Actor, pc: StopPc)
    requires Base(s)
    requires a in s.stops ==>
               forall slot :: slot in Drained(s.stops[a]) && slot !in Drained(pc) ==>
                 Reg(slot, a) !in s.forward && forall t :: t in s.threads ==> !Claims(s.threads[t], Reg(slot, a))
    ensures CoverInv(s.forward, s.arcs, s.relations, s.threads, Stop(s, a, pc).stops)
  {
    var s' := Stop(s, a, pc);
    forall r | Known(s.arcs, s.relations, s.stops, r) && !Known(s'.arcs, s'.relations, s'.stops, r)
      ensures a in s.stops && r == Reg(r.slot, a) && r.slot in Drained(s.stops[a]) && r.slot !in Drained(pc)
    {
    }
  }

  /** What a shutdown no longer lists as drained is gone forward. */
  lemma StopBase(s: State, a: Actor, pc: StopPc)
    requires Base(s) && StopLocated(s, a, pc)
    requires a in s.stops ==>
               forall slot :: slot in Drained(s.stops[a]) && slot !in Drained(pc) ==>
                 Reg(slot, a) !in s.forward && forall t :: t in s.threads ==> !Claims(s.threads[t], Reg(slot, a))
    ensures Base(Stop(s, a, pc))
  {
    StopKeeps(s, a, pc);
    StopSensible(s, a, pc);
    StopCovers(s, a, pc);
    hide EntryInv, HolderInv, RefInv, CurrentInv, AddInv, TakenInv, SensibleInv, ExistInv, CoverInv;
  }

  /** Only the relations in the reverse index record anything. */
  lemma OnlyCurrentRecords(s: State, x: ArcId, slot: Slot)
    requires Base(s) && x < |s.arcs| && slot in s.arcs[x].slots
    ensures s.arcs[x].owner in s.relations && s.relations[s.arcs[x].owner] == x
  {
  }

  /** A thread that is adding holds the relations it adds to. */
  lemma AddingHolds(s: State, t: ThreadId)
    requires Base(s) && t in s.threads && Adding(s.threads[t]).Some?
    ensures var ref := Adding(s.threads[t]).value;
            && ref.actor in s.relations && s.relations[ref.actor] == ref.arc
            && ref.arc < |s.arcs| && s.arcs[ref.arc].holder == Some(T(t))
            && (ref.actor in s.stops ==> s.stops[ref.actor] == GetMonitors || s.stops[ref.actor] == LockMonitors(ref.arc))
  {
    assert HeldRef(s.threads[t]) == Adding(s.threads[t]);
  }
}
