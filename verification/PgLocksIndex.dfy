/**
 The scope index and the existence of group entries under concurrency.
 */
module PgLocksIndex {
  import opened Options
  import opened PgNames
  import opened PgLocks
  import opened PgLocksInvariant
  import opened PgLocksSafety

  /** The thread holds the group to remove members from it. */
  predicate LeavesGroup(pc: Pc, key: Key)
  {
    pc.Leaving? && !pc.leave.LeaveLock? && pc.leave.key == key
  }

  /** The thread holds the entry or will still look whether it is empty. */
  predicate MindsEntry(pc: Pc, e: Entry, stops: map<Actor, StopPc>)
  {
    || HeldEntry(pc) == Some(e)
    || match pc
       case Joining(Clean(key, noneJoined, _)) => noneJoined && GroupEntry(key) == e
       case Joining(CleanHeld(key, noneJoined, _, _)) => noneJoined && GroupEntry(key) == e
       case Joining(PruneGroup(key)) => GroupEntry(key) == e
       case Monitoring(MonAfter(slot, ref)) => ref.actor in stops && EntryOf(slot) == e
       case Monitoring(MonPrune(slot, _)) => EntryOf(slot) == e
       case _ => false
  }

  /** A group with members is in the index; a group in the index without members is being
      left. */
  ghost predicate IndexInv(forward: set<Reg>, index: set<Key>, threads: map<ThreadId, Pc>)
  {
    && (forall key :: !NoMembers(forward, key) ==> key in index)
    && (forall key :: key in index && NoMembers(forward, key) ==>
          exists t :: t in threads && LeavesGroup(threads[t], key))
  }

  /** An empty entry is minded by some thread. */
  ghost predicate EntriesInv(forward: set<Reg>, entries: set<Entry>, threads: map<ThreadId, Pc>, stops: map<Actor, StopPc>)
  {
    forall e :: e in entries && EmptyEntry(forward, e) ==>
      exists t :: t in threads && MindsEntry(threads[t], e, stops)
  }

  /** `demonitor_all` drains monitors and `leave_all` drains memberships. */
  ghost predicate ListsInv(stops: map<Actor, StopPc>)
  {
    && (forall a :: a in stops && stops[a].DropMonitors? ==> forall slot :: slot in stops[a].slots ==> !slot.Member?)
    && (forall a :: a in stops && stops[a].DropMembers? ==> forall slot :: slot in stops[a].slots ==> slot.Member?)
  }

  ghost predicate Exact(s: State)
  {
    && IndexInv(s.forward, s.index, s.threads)
    && EntriesInv(s.forward, s.entries, s.threads, s.stops)
    && ListsInv(s.stops)
  }

  // ------------------------------------------------------------------ preservation

  /** A thread moves; what it stops minding is not empty and what it stops leaving is exact. */
  lemma MoveExact(s: State, t: ThreadId, pc: Pc)
    requires Exact(s) && t in s.threads
    requires forall e :: MindsEntry(s.threads[t], e, s.stops) && e in s.entries && EmptyEntry(s.forward, e) ==>
               MindsEntry(pc, e, s.stops)
    requires forall key :: LeavesGroup(s.threads[t], key) && key in s.index && NoMembers(s.forward, key) ==> LeavesGroup(pc, key)
    ensures Exact(At(s, t, pc))
  {
    var s' := At(s, t, pc);
    forall e | e in s.entries && EmptyEntry(s.forward, e)
      ensures exists u :: u in s'.threads && MindsEntry(s'.threads[u], e, s.stops)
    {
      var u :| u in s.threads && MindsEntry(s.threads[u], e, s.stops);
      assert MindsEntry(s'.threads[u], e, s.stops);
    }
    forall key | key in s.index && NoMembers(s.forward, key)
      ensures exists u :: u in s'.threads && LeavesGroup(s'.threads[u], key)
    {
      var u :| u in s.threads && LeavesGroup(s.threads[u], key);
      assert LeavesGroup(s'.threads[u], key);
    }
  }

  /** A thread takes an entry, creating it if need be. */
  lemma TouchExact(s: State, t: ThreadId, e: Entry, pc: Pc)
    requires Exact(s) && t in s.threads && HeldEntry(pc) == Some(e)
    requires forall x :: !MindsEntry(s.threads[t], x, s.stops)
    requires forall key :: !LeavesGroup(s.threads[t], key)
    ensures Exact(At(Touch(s, e), t, pc)) && Exact(At(s, t, pc))
  {
    MoveExact(s, t, pc);
    var s' := At(Touch(s, e), t, pc);
    assert MindsEntry(s'.threads[t], e, s.stops);
  }

  lemma PruneExact(s: State, e: Entry)
    requires Exact(s)
    ensures Exact(Prune(s, e)) && !(e in Prune(s, e).entries && EmptyEntry(Prune(s, e).forward, e))
    ensures Prune(s, e) == s.(entries := Prune(s, e).entries)
    ensures forall x :: x in Prune(s, e).entries ==> x in s.entries
  {
  }

  /** Removing a listener, with its entry if that becomes empty. */
  lemma DropExact(s: State, r: Reg)
    requires Exact(s) && !r.slot.Member?
    ensures Exact(Drop(s, r))
    ensures !(EntryOf(r.slot) in Drop(s, r).entries && EmptyEntry(Drop(s, r).forward, EntryOf(r.slot)))
  {
    var e := EntryOf(r.slot);
    if Occupied(s, e) {
      var f := s.forward - {r};
      assert forall key :: NoMembers(f, key) <==> NoMembers(s.forward, key) by {
        forall key, q | q in s.forward && q.slot == Member(key)
          ensures q in f
        {
        }
      }
      forall x | x != e && EmptyEntry(f, x)
        ensures EmptyEntry(s.forward, x)
      {
        forall q | q in s.forward
          ensures EntryOf(q.slot) != x
        {
          assert q == r || q in f;
        }
      }
    }
  }

  /** Removing a member, with the index and the entry brought up to date. */
  lemma DropMemberExact(s: State, key: Key, a: Actor)
    requires Exact(s)
    ensures var f := s.(forward := s.forward - {Reg(Member(key), a)});
            Exact(Prune(PruneIndex(f, key), GroupEntry(key)))
  {
    var f := s.forward - {Reg(Member(key), a)};
    forall k | k != key
      ensures NoMembers(f, k) <==> NoMembers(s.forward, k)
    {
      forall q | q in s.forward && q.slot == Member(k)
        ensures q in f
      {
      }
    }
    forall x | x != GroupEntry(key) && EmptyEntry(f, x)
      ensures EmptyEntry(s.forward, x)
    {
      forall q | q in s.forward
        ensures EntryOf(q.slot) != x
      {
        assert q == Reg(Member(key), a) || q in f;
      }
    }
  }

  lemma JoinedExact(s: State, t: ThreadId, j: Join)
    requires Exact(s) && t in s.threads && s.threads[t] == Joining(Loop(j))
    ensures Exact(At(AddMembers(s, j), t, Joining(Clean(j.key, j.accepted == {}, j.stopped))))
  {
    var pc := Joining(Clean(j.key, j.accepted == {}, j.stopped));
    if j.accepted == {} {
      assert AddMembers(s, j).forward == s.forward;
      MoveExact(s, t, pc);
    } else {
      var a :| a in j.accepted;
      var s1 := AddMembers(s, j);
      assert Reg(Member(j.key), a) in s1.forward;
      assert forall key :: NoMembers(s1.forward, key) ==> NoMembers(s.forward, key);
      assert forall e :: EmptyEntry(s1.forward, e) ==> EmptyEntry(s.forward, e);
      forall key | !NoMembers(s1.forward, key)
        ensures key in s1.index
      {
        var q :| q in s1.forward && q.slot == Member(key);
        if q in s.forward { assert !NoMembers(s.forward, key); }
      }
      assert Exact(s1);
      MoveExact(s1, t, pc);
    }
  }

  lemma StepJoinExact(s: State, t: ThreadId)
    requires Exact(s) && t in s.threads && s.threads[t].Joining?
    ensures Exact(StepJoin(s, t, s.threads[t].join))
  {
    hide IndexInv, EntriesInv, ListsInv;
    var s' := StepJoin(s, t, s.threads[t].join);
    match s.threads[t].join
    case JoinLock(key, kept) => if GroupEntry(key) !in s.locked { TouchExact(s, t, GroupEntry(key), s'.threads[t]); }
    case Loop(j) => if j.todo == [] { JoinedExact(s, t, j); } else { MoveExact(s, t, s'.threads[t]); }
    case PruneGroup(key) => if GroupEntry(key) !in s.locked { PruneMoveExact(s, t, GroupEntry(key), Idle); }
    case Check(_, _) => RelationsExact(s, t);
    case Add(_, _) => RelationsExact(s, t);
    case _ => MoveExact(s, t, s'.threads[t]);
  }

  /** What a join does to the relations of an actor, the entries do not notice. */
  lemma RelationsExact(s: State, t: ThreadId)
    requires Exact(s) && t in s.threads && s.threads[t].Joining? && (s.threads[t].join.Check? || s.threads[t].join.Add?)
    ensures Exact(StepJoin(s, t, s.threads[t].join))
  {
    hide IndexInv, EntriesInv, ListsInv;
    MoveExact(s, t, StepJoin(s, t, s.threads[t].join).threads[t]);
  }

  /** A thread whose business was to look at one entry has done so. */
  lemma PruneMoveExact(s: State, t: ThreadId, e: Entry, pc: Pc)
    requires Exact(s) && t in s.threads
    requires forall x :: MindsEntry(s.threads[t], x, s.stops) ==> x == e
    requires forall key :: !LeavesGroup(s.threads[t], key)
    ensures Exact(At(Prune(s, e), t, pc))
  {
    hide IndexInv, EntriesInv, ListsInv;
    PruneExact(s, e);
    MoveExact(Prune(s, e), t, pc);
  }

  lemma MonAddExact(s: State, t: ThreadId, slot: Slot, ref: Ref)
    requires Exact(s) && t in s.threads && s.threads[t] == Monitoring(MonAdd(slot, ref)) && !slot.Member?
    ensures Exact(At(s.(forward := s.forward + {Reg(slot, ref.actor)}), t, Monitoring(MonAfter(slot, ref))))
  {
    var r := Reg(slot, ref.actor);
    var s1 := s.(forward := s.forward + {r});
    assert r in s1.forward;
    assert forall e :: EmptyEntry(s1.forward, e) ==> EmptyEntry(s.forward, e);
    forall key
      ensures NoMembers(s1.forward, key) <==> NoMembers(s.forward, key)
    {
    }
    assert Exact(s1);
    MoveExact(s1, t, Monitoring(MonAfter(slot, ref)));
  }

  lemma StepMonitorExact(s: State, t: ThreadId)
    requires Exact(s) && t in s.threads && s.threads[t].Monitoring? && Sensible(s.threads[t], s.stops)
    ensures Exact(StepMonitor(s, t, s.threads[t].monitor))
  {
    hide IndexInv, EntriesInv, ListsInv;
    var s' := StepMonitor(s, t, s.threads[t].monitor);
    match s.threads[t].monitor
    case MonLock(slot, _) => if EntryOf(slot) !in s.locked { TouchExact(s, t, EntryOf(slot), s'.threads[t]); }
    case MonAdd(slot, ref) => MonAddExact(s, t, slot, ref);
    case MonPrune(slot, ref) =>
      if EntryOf(slot) !in s.locked { PruneMoveExact(s, t, EntryOf(slot), s'.threads[t]); }
    case _ => MoveExact(s, t, s'.threads[t]);
  }

  lemma LeaveRemoveExact(s: State, t: ThreadId, key: Key, a: Actor, todo: seq<Actor>)
    requires Exact(s) && t in s.threads && s.threads[t] == Leaving(LeaveRemove(key, a, todo))
    ensures Exact(At(s.(forward := s.forward - {Reg(Member(key), a)}), t, Leaving(LeaveLoop(key, todo))))
  {
    var s' := At(s.(forward := s.forward - {Reg(Member(key), a)}), t, Leaving(LeaveLoop(key, todo)));
    MoveExact(s, t, Leaving(LeaveLoop(key, todo)));
    assert LeavesGroup(s'.threads[t], key) && MindsEntry(s'.threads[t], GroupEntry(key), s.stops);
    forall k | k != key
      ensures NoMembers(s'.forward, k) <==> NoMembers(s.forward, k)
    {
      forall q | q in s.forward && q.slot == Member(k)
        ensures q in s'.forward
      {
      }
    }
    forall x | x != GroupEntry(key) && EmptyEntry(s'.forward, x)
      ensures EmptyEntry(s.forward, x)
    {
      forall q | q in s.forward
        ensures EntryOf(q.slot) != x
      {
        assert q == Reg(Member(key), a) || q in s'.forward;
      }
    }
  }

  lemma LeaveEndExact(s: State, t: ThreadId, key: Key)
    requires Exact(s) && t in s.threads && s.threads[t] == Leaving(LeaveLoop(key, []))
    ensures Exact(At(Prune(PruneIndex(s, key), GroupEntry(key)), t, Idle))
  {
    var s1 := PruneIndex(s, key);
    assert Exact(s1);
    PruneExact(s1, GroupEntry(key));
    MoveExact(Prune(s1, GroupEntry(key)), t, Idle);
  }

  lemma StepLeaveExact(s: State, t: ThreadId)
    requires Exact(s) && t in s.threads && s.threads[t].Leaving?
    ensures Exact(StepLeave(s, t, s.threads[t].leave))
  {
    hide IndexInv, EntriesInv, ListsInv;
    var s' := StepLeave(s, t, s.threads[t].leave);
    match s.threads[t].leave
    case LeaveLock(key, _) => MoveExact(s, t, s'.threads[t]);
    case LeaveLoop(key, todo) => if todo == [] { LeaveEndExact(s, t, key); } else { MoveExact(s, t, s'.threads[t]); }
    case LeaveRemove(key, a, todo) => LeaveRemoveExact(s, t, key, a, todo);
    case _ => MoveExact(s, t, s'.threads[t]);
  }

  lemma StepDemonitorExact(s: State, t: ThreadId)
    requires Exact(s) && t in s.threads && s.threads[t].Demonitoring? && Sensible(s.threads[t], s.stops)
    ensures Exact(StepDemonitor(s, t, s.threads[t].dem))
  {
    hide IndexInv, EntriesInv, ListsInv, Drop;
    var s' := StepDemonitor(s, t, s.threads[t].dem);
    match s.threads[t].dem
    case DemLock(slot, a, rel) =>
      if EntryOf(slot) !in s.locked {
        if rel.Some? {
          MoveExact(s, t, s'.threads[t]);
        } else {
          DropExact(s, Reg(slot, a));
          DropFrame(s, Reg(slot, a));
          MoveExact(Drop(s, Reg(slot, a)), t, Idle);
        }
      }
    case DemHeld(slot, ref) =>
      DropExact(s, Reg(slot, ref.actor));
      DropFrame(s, Reg(slot, ref.actor));
      MoveExact(Drop(s, Reg(slot, ref.actor)), t, Idle);
    case _ => MoveExact(s, t, s'.threads[t]);
  }

  lemma DropsExact(s: State, a: Actor, pick: Slot)
    requires Exact(s) && a in s.stops && pick in Drained(s.stops[a]) && EntryOf(pick) !in s.locked
    ensures Exact(StepStop(s, a, pick))
  {
    hide IndexInv, EntriesInv, Drop;
    if s.stops[a].DropMonitors? {
      DropExact(s, Reg(pick, a));
      DropFrame(s, Reg(pick, a));
      StopExact(Drop(s, Reg(pick, a)), a, DropMonitors(s.stops[a].slots - {pick}));
    } else {
      var pc := DropMembers(s.stops[a].arc, s.stops[a].slots - {pick});
      if Occupied(s, EntryOf(pick)) && Reg(pick, a) in s.forward {
        DropMemberExact(s, pick.key, a);
        StopExact(Prune(PruneIndex(s.(forward := s.forward - {Reg(pick, a)}), pick.key), EntryOf(pick)), a, pc);
      } else {
        StopExact(s, a, pc);
      }
    }
  }

  lemma StepStopExact(s: State, a: Actor, pick: Slot)
    requires Exact(s) && a in s.stops
    ensures Exact(StepStop(s, a, pick))
  {
    hide IndexInv, EntriesInv;
    var pc := StepStop(s, a, pick).stops[a];
    if pick in Drained(s.stops[a]) && EntryOf(pick) !in s.locked {
      DropsExact(s, a, pick);
    } else if pc != s.stops[a] {
      StopExact(s, a, pc);
    }
  }

  lemma StopExact(s: State, a: Actor, pc: StopPc)
    requires Exact(s)
    requires pc.DropMonitors? ==> forall slot :: slot in pc.slots ==> !slot.Member?
    requires pc.DropMembers? ==> forall slot :: slot in pc.slots ==> slot.Member?
    ensures Exact(Stop(s, a, pc))
  {
    var s' := Stop(s, a, pc);
    forall e | e in s.entries && EmptyEntry(s.forward, e)
      ensures exists t :: t in s.threads && MindsEntry(s.threads[t], e, s'.stops)
    {
      var t :| t in s.threads && MindsEntry(s.threads[t], e, s.stops);
      assert MindsEntry(s.threads[t], e, s'.stops);
    }
  }

  lemma NextExact(s: State, e: Event)
    requires Inv(s) && Exact(s)
    ensures Exact(Next(s, e))
  {
    hide Exact, Base, CleanInv;
    match e
    case Thread(t, choice) =>
      if t in s.threads {
        ThreadLocated(s, t);
        match s.threads[t]
        case Idle => if StepThread(s, t, choice) != s { MoveExact(s, t, StepThread(s, t, choice).threads[t]); }
        case Joining(_) => StepJoinExact(s, t);
        case Monitoring(_) => StepMonitorExact(s, t);
        case Leaving(_) => StepLeaveExact(s, t);
        case Demonitoring(_) => StepDemonitorExact(s, t);
      }
    case Publish(a) => if a !in s.stops { StopExact(s, a, GetMonitors); }
    case Shutdown(a, pick) => if a in s.stops { StepStopExact(s, a, pick); }
  }

  lemma {:induction false} RunExact(s: State, events: seq<Event>)
    requires Inv(s) && Exact(s)
    ensures Exact(Run(s, events))
    decreases |events|
  {
    hide Inv, Exact;
    if events != [] {
      NextInv(s, events[0]);
      NextExact(s, events[0]);
      RunExact(Next(s, events[0]), events[1..]);
    }
  }

  /** Whenever no operation is in flight, at any stage of any shutdown, the scope index is
      exactly the set of groups that have members, and every existing entry has a member
      or a listener. */
  lemma QuiescentIndexIsExact(threads: set<ThreadId>, events: seq<Event>)
    ensures var s := Run(Init(threads), events);
            (forall t :: t in s.threads ==> s.threads[t].Idle?) ==>
              && (forall key :: key in s.index <==> exists r :: r in s.forward && r.slot == Member(key))
              && (forall e :: e in s.entries ==> exists r :: r in s.forward && EntryOf(r.slot) == e)
  {
    InitInv(threads);
    assert Exact(Init(threads));
    RunExact(Init(threads), events);
  }
}
