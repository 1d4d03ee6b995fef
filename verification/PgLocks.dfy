/**
 Process groups under concurrency, at the granularity of the locks.

 Any number of threads join actors to groups, monitor groups and scopes, leave and
 demonitor, while any number of actors shut down. A step is one access to a status, one
 acquisition of a forward entry or of an actor's relations, or the work done between two
 acquisitions; a forward entry and an actor's relations are held over exactly the steps
 over which the source holds them. `Next` is total, a blocked or impossible event leaves
 the state unchanged, so a run is any sequence of events.

 Publishing `Stopping` is an atomic maximum whose first caller alone performs the cleanup,
 so an actor has at most one shutdown and the shutdowns are indexed by actor.
 */
module PgLocks {
  import opened Options
  import opened PgNames

  type ThreadId = nat
  type ArcId = nat

  /** One relationship an actor can have, with the forward entry that records it. */
  datatype Slot = Member(key: Key) | Listener(key: Key) | WorldListener(key: Key)

  datatype Entry = GroupEntry(key: Key) | WorldEntry(key: Key)

  function EntryOf(slot: Slot): Entry
  {
    if slot.WorldListener? then WorldEntry(slot.key) else GroupEntry(slot.key)
  }

  datatype Reg = Reg(slot: Slot, actor: Actor)

  /** A reference to the relations of an actor, which the source holds as an `Arc`. */
  datatype Ref = Ref(actor: Actor, arc: ArcId)

  datatype Proc = T(t: ThreadId) | S(a: Actor)

  /** The relations of one actor behind their mutex. */
  datatype Arc = Arc(owner: Actor, slots: set<Slot>, holder: Option<Proc>)

  /** The local variables of `join_scoped` while it holds the group entry. */
  datatype Join = Join(key: Key, todo: seq<Actor>, processed: set<Actor>, accepted: set<Actor>, stopped: seq<Ref>)

  datatype JoinPc =
    | Filter(key: Key, todo: seq<Actor>, kept: seq<Actor>)
    | JoinLock(key: Key, kept: seq<Actor>)
    | Loop(j: Join)
    | Fetched(j: Join, ref: Ref)                       // holds a clone of the relations
    | Check(j: Join, ref: Ref)                         // holds the relations
    | Add(j: Join, ref: Ref)
    | Clean(key: Key, noneJoined: bool, stopped: seq<Ref>)
    | CleanHeld(key: Key, noneJoined: bool, ref: Ref, stopped: seq<Ref>)
    | PruneGroup(key: Key)

  datatype MonitorPc =
    | MonStart(slot: Slot, actor: Actor)
    | MonLock(slot: Slot, ref: Ref)
    | MonFetched(slot: Slot, ref: Ref)
    | MonCheck(slot: Slot, ref: Ref)
    | MonAdd(slot: Slot, ref: Ref)
    | MonAfter(slot: Slot, ref: Ref)
    | MonPrune(slot: Slot, ref: Ref)
    | MonClean(ref: Ref)
    | MonCleanHeld(ref: Ref)

  datatype LeavePc =
    | LeaveLock(key: Key, todo: seq<Actor>)
    | LeaveLoop(key: Key, todo: seq<Actor>)
    | LeaveFetched(key: Key, ref: Ref, todo: seq<Actor>)
    | LeaveHeld(key: Key, ref: Ref, todo: seq<Actor>)
    | LeaveRemove(key: Key, actor: Actor, todo: seq<Actor>)

  datatype DemonitorPc =
    | DemStart(slot: Slot, actor: Actor)
    | DemLock(slot: Slot, actor: Actor, rel: Option<ArcId>)
    | DemFetched(slot: Slot, ref: Ref)
    | DemHeld(slot: Slot, ref: Ref)

  /** Where a thread is: in `join_scoped`, in `monitor` or `monitor_scope`, in
      `leave_scoped`, or in `demonitor` or `demonitor_scope`. */
  datatype Pc =
    | Idle
    | Joining(join: JoinPc)
    | Monitoring(monitor: MonitorPc)
    | Leaving(leave: LeavePc)
    | Demonitoring(dem: DemonitorPc)

  /** `demonitor_all` followed by `leave_all`. */
  datatype StopPc =
    | GetMonitors
    | LockMonitors(arc: ArcId)
    | TakeMonitors(arc: ArcId)
    | DropMonitors(slots: set<Slot>)
    | GetMembers
    | LockMembers(arc: ArcId)
    | TakeMembers(arc: ArcId)
    | DropMembers(arc: ArcId, slots: set<Slot>)
    | CleanLock(arc: ArcId)
    | CleanDo(arc: ArcId)
    | Done

  datatype State = State(
    forward: set<Reg>,                 // members, listeners and world listeners
    entries: set<Entry>,               // which forward entries exist
    index: set<Key>,                   // scope index, as the set of its (scope, group) pairs
    relations: map<Actor, ArcId>,      // the reverse index
    arcs: seq<Arc>,                    // every relations object ever created
    locked: map<Entry, ThreadId>,      // forward entries held, and by whom
    threads: map<ThreadId, Pc>,
    stops: map<Actor, StopPc>)         // the actors whose Stopping status is published

  datatype Choice =
    | Proceed
    | BeginJoin(key: Key, actors: seq<Actor>)
    | BeginMonitor(slot: Slot, actor: Actor)
    | BeginLeave(key: Key, actors: seq<Actor>)
    | BeginDemonitor(slot: Slot, actor: Actor)

  datatype Event =
    | Thread(t: ThreadId, choice: Choice)
    | Publish(actor: Actor)                    // the first set_status(Stopping)
    | Shutdown(actor: Actor, pick: Slot)       // a step of that caller; pick chooses the next drained key

  predicate Stopping(s: State, a: Actor) { a in s.stops }

  // ------------------------------------------------------------------ primitive updates

  function At(s: State, t: ThreadId, pc: Pc): State { s.(threads := s.threads[t := pc]) }

  predicate Occupied(s: State, e: Entry) { e in s.entries }

  predicate EmptyEntry(forward: set<Reg>, e: Entry) { forall r :: r in forward ==> EntryOf(r.slot) != e }

  predicate NoMembers(forward: set<Reg>, key: Key) { forall r :: r in forward ==> r.slot != Member(key) }

  function Lock(s: State, t: ThreadId, e: Entry): State { s.(locked := s.locked[e := t]) }

  function Unlock(s: State, e: Entry): State { s.(locked := s.locked - {e}) }

  /** Remove an entry that has neither members nor listeners left. */
  function Prune(s: State, e: Entry): State
  {
    if EmptyEntry(s.forward, e) then s.(entries := s.entries - {e}) else s
  }

  function PruneIndex(s: State, key: Key): State
  {
    if NoMembers(s.forward, key) then s.(index := s.index - {key}) else s
  }

  /** Remove an actor from an entry if the entry exists, and the entry once it is empty. */
  function Drop(s: State, r: Reg): State
  {
    if Occupied(s, EntryOf(r.slot)) then Prune(s.(forward := s.forward - {r}), EntryOf(r.slot)) else s
  }

  /** `entry(key).or_default()` */
  function Touch(s: State, e: Entry): State { s.(entries := s.entries + {e}) }

  /** The accepted actors become members, and a group with members is in the index. */
  function AddMembers(s: State, j: Join): State
  {
    s.(forward := s.forward + Claimed(j),
       index := if j.accepted == {} then s.index else s.index + {j.key})
  }

  function Claimed(j: Join): set<Reg> { set a | a in j.accepted :: Reg(Member(j.key), a) }

  function SetArc(s: State, x: ArcId, arc: Arc): State
    requires x < |s.arcs|
  {
    s.(arcs := s.arcs[x := arc])
  }

  function ArcLock(s: State, x: ArcId, p: Proc): State
  {
    if x < |s.arcs| then SetArc(s, x, s.arcs[x].(holder := Some(p))) else s
  }

  predicate ArcFree(s: State, x: ArcId) { x < |s.arcs| && s.arcs[x].holder.None? }

  /** Replace the contents of held relations and release them. */
  function ArcRelease(s: State, x: ArcId, slots: set<Slot>): State
  {
    if x < |s.arcs| then SetArc(s, x, s.arcs[x].(slots := slots, holder := None)) else s
  }

  function Slots(s: State, x: ArcId): set<Slot> { if x < |s.arcs| then s.arcs[x].slots else {} }

  /** `get_or_create_actor_relations` */
  function Ensure(s: State, a: Actor): State
  {
    if a in s.relations then s
    else s.(relations := s.relations[a := |s.arcs|], arcs := s.arcs + [Arc(a, {}, None)])
  }

  /** The relations that `Ensure` leaves in place for an actor. */
  function Relations(s: State, a: Actor): ArcId { if a in s.relations then s.relations[a] else |s.arcs| }

  /** The end of `remove_empty_actor_relations`, holding the relations. */
  function CleanRelations(s: State, ref: Ref): State
  {
    var s' := ArcRelease(s, ref.arc, Slots(s, ref.arc));
    if Slots(s, ref.arc) == {} && ref.actor in s.relations && s.relations[ref.actor] == ref.arc
    then s'.(relations := s.relations - {ref.actor})
    else s'
  }

  // ------------------------------------------------------------------ steps of a thread

  function StepJoin(s: State, t: ThreadId, pc: JoinPc): State
  {
    match pc
    case Filter(key, todo, kept) =>
      if todo != [] then
        At(s, t, Joining(Filter(key, todo[1..], if Stopping(s, todo[0]) then kept else kept + [todo[0]])))
      else At(s, t, if kept == [] then Idle else Joining(JoinLock(key, kept)))
    case JoinLock(key, kept) =>
      var e := GroupEntry(key);
      if e in s.locked then s
      else At(Lock(Touch(s, e), t, e), t, Joining(Loop(Join(key, kept, {}, {}, []))))
    case Loop(j) =>
      if j.todo == [] then
        At(Unlock(AddMembers(s, j), GroupEntry(j.key)), t, Joining(Clean(j.key, j.accepted == {}, j.stopped)))
      else
        var a := j.todo[0];
        var rest := j.(todo := j.todo[1..]);
        if a in j.processed then At(s, t, Joining(Loop(rest)))
        else
          At(Ensure(s, a), t, Joining(Fetched(rest.(processed := j.processed + {a}), Ref(a, Relations(s, a)))))
    case Fetched(j, ref) =>
      if ArcFree(s, ref.arc) then At(ArcLock(s, ref.arc, T(t)), t, Joining(Check(j, ref))) else s
    case Check(j, ref) =>
      if !Stopping(s, ref.actor) then At(s, t, Joining(Add(j, ref)))
      else
        var j' := if Slots(s, ref.arc) == {} then j.(stopped := j.stopped + [ref]) else j;
        At(ArcRelease(s, ref.arc, Slots(s, ref.arc)), t, Joining(Loop(j')))
    case Add(j, ref) =>
      At(ArcRelease(s, ref.arc, Slots(s, ref.arc) + {Member(j.key)}), t,
         Joining(Loop(j.(accepted := j.accepted + {ref.actor}))))
    case Clean(key, noneJoined, stopped) =>
      if stopped == [] then At(s, t, if noneJoined then Joining(PruneGroup(key)) else Idle)
      else if ArcFree(s, stopped[0].arc) then
        At(ArcLock(s, stopped[0].arc, T(t)), t, Joining(CleanHeld(key, noneJoined, stopped[0], stopped[1..])))
      else s
    case CleanHeld(key, noneJoined, ref, stopped) =>
      At(CleanRelations(s, ref), t, Joining(Clean(key, noneJoined, stopped)))
    case PruneGroup(key) =>
      if GroupEntry(key) in s.locked then s else At(Prune(s, GroupEntry(key)), t, Idle)
  }

  function StepMonitor(s: State, t: ThreadId, pc: MonitorPc): State
  {
    match pc
    case MonStart(slot, a) => At(Ensure(s, a), t, Monitoring(MonLock(slot, Ref(a, Relations(s, a)))))
    case MonLock(slot, ref) =>
      var e := EntryOf(slot);
      if e in s.locked then s
      else At(Lock(Touch(s, e), t, e), t, Monitoring(MonFetched(slot, ref)))
    case MonFetched(slot, ref) =>
      if ArcFree(s, ref.arc) then At(ArcLock(s, ref.arc, T(t)), t, Monitoring(MonCheck(slot, ref))) else s
    case MonCheck(slot, ref) =>
      if !Stopping(s, ref.actor) then At(s, t, Monitoring(MonAdd(slot, ref)))
      else
        At(Unlock(ArcRelease(s, ref.arc, Slots(s, ref.arc)), EntryOf(slot)), t, Monitoring(MonAfter(slot, ref)))
    case MonAdd(slot, ref) =>
      var added := s.(forward := s.forward + {Reg(slot, ref.actor)});
      At(Unlock(ArcRelease(added, ref.arc, Slots(s, ref.arc) + {slot}), EntryOf(slot)), t,
         Monitoring(MonAfter(slot, ref)))
    case MonAfter(slot, ref) =>
      At(s, t, if Stopping(s, ref.actor) then Monitoring(MonPrune(slot, ref)) else Idle)
    case MonPrune(slot, ref) =>
      if EntryOf(slot) in s.locked then s else At(Prune(s, EntryOf(slot)), t, Monitoring(MonClean(ref)))
    case MonClean(ref) =>
      if ArcFree(s, ref.arc) then At(ArcLock(s, ref.arc, T(t)), t, Monitoring(MonCleanHeld(ref))) else s
    case MonCleanHeld(ref) => At(CleanRelations(s, ref), t, Idle)
  }

  function StepLeave(s: State, t: ThreadId, pc: LeavePc): State
  {
    match pc
    case LeaveLock(key, todo) =>
      var e := GroupEntry(key);
      if e in s.locked then s
      else if !Occupied(s, e) then At(s, t, Idle)
      else At(Lock(s, t, e), t, Leaving(LeaveLoop(key, todo)))
    case LeaveLoop(key, todo) =>
      if todo == [] then At(Unlock(Prune(PruneIndex(s, key), GroupEntry(key)), GroupEntry(key)), t, Idle)
      else if todo[0] in s.relations then
        At(s, t, Leaving(LeaveFetched(key, Ref(todo[0], s.relations[todo[0]]), todo[1..])))
      else At(s, t, Leaving(LeaveRemove(key, todo[0], todo[1..])))
    case LeaveFetched(key, ref, todo) =>
      if ArcFree(s, ref.arc) then At(ArcLock(s, ref.arc, T(t)), t, Leaving(LeaveHeld(key, ref, todo))) else s
    case LeaveHeld(key, ref, todo) =>
      At(ArcRelease(s, ref.arc, Slots(s, ref.arc) - {Member(key)}), t, Leaving(LeaveRemove(key, ref.actor, todo)))
    case LeaveRemove(key, a, todo) =>
      At(s.(forward := s.forward - {Reg(Member(key), a)}), t, Leaving(LeaveLoop(key, todo)))
  }

  function StepDemonitor(s: State, t: ThreadId, pc: DemonitorPc): State
  {
    match pc
    case DemStart(slot, a) =>
      At(s, t, Demonitoring(DemLock(slot, a, if a in s.relations then Some(s.relations[a]) else None)))
    case DemLock(slot, a, rel) =>
      var e := EntryOf(slot);
      if e in s.locked then s
      else if rel.Some? then At(Lock(s, t, e), t, Demonitoring(DemFetched(slot, Ref(a, rel.value))))
      else At(Drop(s, Reg(slot, a)), t, Idle)
    case DemFetched(slot, ref) =>
      if ArcFree(s, ref.arc) then At(ArcLock(s, ref.arc, T(t)), t, Demonitoring(DemHeld(slot, ref))) else s
    case DemHeld(slot, ref) =>
      At(Unlock(ArcRelease(Drop(s, Reg(slot, ref.actor)), ref.arc, Slots(s, ref.arc) - {slot}), EntryOf(slot)), t, Idle)
  }

  function StepThread(s: State, t: ThreadId, choice: Choice): State
    requires t in s.threads
  {
    match s.threads[t]
    case Idle =>
      (match choice
       case Proceed => s
       case BeginJoin(key, actors) => At(s, t, Joining(Filter(key, actors, [])))
       case BeginMonitor(slot, a) => if slot.Member? then s else At(s, t, Monitoring(MonStart(slot, a)))
       case BeginLeave(key, actors) => At(s, t, Leaving(LeaveLock(key, actors)))
       case BeginDemonitor(slot, a) => if slot.Member? then s else At(s, t, Demonitoring(DemStart(slot, a))))
    case Joining(join) => StepJoin(s, t, join)
    case Monitoring(monitor) => StepMonitor(s, t, monitor)
    case Leaving(leave) => StepLeave(s, t, leave)
    case Demonitoring(dem) => StepDemonitor(s, t, dem)
  }

  // ------------------------------------------------------------------ steps of a shutdown

  function Stop(s: State, a: Actor, pc: StopPc): State { s.(stops := s.stops[a := pc]) }

  predicate Monitors(slot: Slot) { !slot.Member? }

  function StepStop(s: State, a: Actor, pick: Slot): State
    requires a in s.stops
  {
    match s.stops[a]
    case GetMonitors => Stop(s, a, if a in s.relations then LockMonitors(s.relations[a]) else GetMembers)
    case LockMonitors(x) =>
      if ArcFree(s, x) then Stop(ArcLock(s, x, S(a)), a, TakeMonitors(x)) else s
    case TakeMonitors(x) =>
      var taken := set slot | slot in Slots(s, x) && Monitors(slot);
      Stop(ArcRelease(s, x, Slots(s, x) - taken), a, DropMonitors(taken))
    case DropMonitors(slots) =>
      if slots == {} then Stop(s, a, GetMembers)
      else if pick !in slots || EntryOf(pick) in s.locked then s
      else
        Stop(Drop(s, Reg(pick, a)), a, DropMonitors(slots - {pick}))
    case GetMembers => Stop(s, a, if a in s.relations then LockMembers(s.relations[a]) else Done)
    case LockMembers(x) =>
      if ArcFree(s, x) then Stop(ArcLock(s, x, S(a)), a, TakeMembers(x)) else s
    case TakeMembers(x) =>
      var taken := set slot | slot in Slots(s, x) && !Monitors(slot);
      Stop(ArcRelease(s, x, Slots(s, x) - taken), a, DropMembers(x, taken))
    case DropMembers(x, slots) =>
      if slots == {} then Stop(s, a, CleanLock(x))
      else if pick !in slots || EntryOf(pick) in s.locked then s
      else
        var s' := if Occupied(s, EntryOf(pick)) && Reg(pick, a) in s.forward
                  then Prune(PruneIndex(s.(forward := s.forward - {Reg(pick, a)}), pick.key), EntryOf(pick))
                  else s;
        Stop(s', a, DropMembers(x, slots - {pick}))
    case CleanLock(x) =>
      if ArcFree(s, x) then Stop(ArcLock(s, x, S(a)), a, CleanDo(x)) else s
    case CleanDo(x) => Stop(CleanRelations(s, Ref(a, x)), a, Done)
    case Done => s
  }

  function Next(s: State, e: Event): State
  {
    match e
    case Thread(t, choice) => if t in s.threads then StepThread(s, t, choice) else s
    case Publish(a) => if a in s.stops then s else Stop(s, a, GetMonitors)
    case Shutdown(a, pick) => if a in s.stops then StepStop(s, a, pick) else s
  }

  function Run(s: State, events: seq<Event>): State
    decreases |events|
  {
    if events == [] then s else Run(Next(s, events[0]), events[1..])
  }

  function Init(threads: set<ThreadId>): State
  {
    State({}, {}, {}, map[], [], map[], map t | t in threads :: Idle, map[])
  }
}
