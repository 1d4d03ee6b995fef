# Verified protocols of ractor

A Dafny model of the parts of the ractor actor runtime, and of its cluster extension, in which
several parties must agree, with proofs of what they agree on. `dafny verify dfyconfig.toml`
checks the whole project.

| part | files |
|---|---|
| message admission and drain: a packed atomic word, senders, drainers and the message loop | `AdmissionWord`, `Admission`, `AdmissionTurns` |
| process groups, step by step under their locks | `PgLocks`, `PgLocksInvariant`, `PgLocksSafety`, `PgLocksIndex`, `PgLocksReverse`, `PgLocksProgress`, `PgLocksSchedules`, `PgLocksEffects` |
| process groups, operation by operation | `PgNames`, `Pg`, `PgState` |
| the supervision tree and the termination worklist | `Supervision`, `SupervisionState`, `Terminate` |
| supervision under its mutation lock, with cleanups | `SupervisionLocks`, `SupervisionCleanup`, `SupervisionEffects` |
| an actor's life, its cleanup guard, and waiting for its end | `Lifecycle`, `LifecycleTask`, `StopWait` |
| the election among duplicate cluster connections | `Election`, `ElectionNode`, `ElectionOutcomes`, `ElectionState` |
| pending remote calls | `RemoteCalls`, `RemoteCallsAnswers`, `RemoteCallsBound`, `RemoteCallsState` |
| the wire format of integers, vectors, fields and messages | `Bytes`, `Framing` |
| the factory's priority queue | `Queues`, `QueuesState` |
| the dining philosophers example | `Philosophers`, `PhilosophersRing`, `PhilosophersSafety`, `PhilosophersRest`, `PhilosophersStuck`, `PhilosophersFate`, `PhilosophersChance` |

Concurrent code is a state machine. A state holds the shared data and the program position of
every thread or shutdown; an event is one atomic operation, or one step under one lock; a run is
any sequence of events, an event that is not enabled changing nothing. A result over every run
is therefore a statement for all event sequences, by an invariant that every step keeps. Code
that updates its own fields is a class, each of its methods proved equal to a function on values,
and the properties are proved of the functions.

What is assumed:

- Atomic operations are sequentially consistent, mutexes exclude, channels are first in, first out.
- Actor ids, session ids and reply ports are unique. An actor's status only advances.
- Locks of the process-group tables are per entry. The source's are per shard of a concurrent
  map, which allows fewer interleavings, so what is always true here is always true there.
  Nobody asks for a second entry while holding one, so waiting for a shard is waiting for the
  holder of one of its entries, and the results on progress carry over as well.
- The notifier that wakes waiters behaves as tokio documents `Notify` (`StopWait`).
- Timers, hash-map orders, handler outcomes and the points of cancellation are arbitrary.
- At most 2^62 - 1 threads send or drain at once (`Admission`), which the count mask needs.
- Both ends of a cluster connection register the same nonzero nonce before they authenticate,
  and no two connections share one (`ElectionNode`).

Six places where the code does less than one might expect, each shown by a concrete case and
with the condition under which it does not happen:

- The exit reason "Drained" does not prove that a drain completed: a stop request may carry the
  same text (`Admission.DrainedReasonIffNotImitated`).
- A demonitor that finds no relations and then overtakes a monitor leaves a listener in the
  reverse index that is not registered (`PgLocksReverse.OvertakenListener`,
  `PgLocksReverse.ListenersStayIff`).
- The termination worklist need not end while actors are created below it. It ends in every
  run exactly if only finitely many may be created (`Terminate.EndlessCreation`,
  `Terminate.EndsIffBounded`).
- The philosophers can starve. The forks start unowned and dirty, so a clean cycle around the
  table can form; it is the only way a run can come to rest (`PhilosophersRest`,
  `PhilosophersStuck`). When it is too late is an exact condition on the state, and it may be
  so while every fork is still dirty (`PhilosophersChance.NobodyEatsAgainIff`,
  `PhilosophersChance.TooLateEarly`).
- Trailing bytes of a vector, an integer, a boolean or a unit field are ignored when read, so
  different bytes may be read as the same message (`Framing.AcceptedBytesRoundTrip`).
- Adding to or subtracting from the admission word is safe only strictly between its bounds
  (`AdmissionWord.IncrementRefines`, `AdmissionWord.DecrementRefines`).

## Model

| member | source | states |
|---|---|---|
| `AdmissionWord.Parts` | ractor/src/actor/actor_properties.rs:37-39 | the two high bits of the word are the flags and the rest is the count; every word is the packing of its triple |
| `AdmissionWord.UnpackInjective` | ractor/src/actor/actor_properties.rs:37-39 | distinct words mean distinct triples |
| `AdmissionWord.FlagUpdates` | ractor/src/actor/actor_properties.rs:238-268 | closing and marking set exactly one flag of the triple |
| `AdmissionWord.IncrementRefines` | ractor/src/actor/actor_properties.rs:218-236 | adding one increments the count and nothing else if and only if the count is below the mask |
| `AdmissionWord.DecrementRefines` | ractor/src/actor/actor_properties.rs:43-52 | subtracting one decrements the count and nothing else if and only if somebody is counted |
| `Admission.CountIsLiveGuards` | ractor/src/actor/actor_properties.rs:43-52 | in every reachable state the count is the number of live admission guards, and neither debug assertion can fail |
| `Admission.WordRefinesTriple` | ractor/src/actor/actor_properties.rs:191-275 | every step of every run is, on the triple, an admission while open, a release, a close, or the marking of a closed word that counts nobody |
| `Admission.MarkerIsUniqueAndLast` | ractor/src/actor/actor_properties.rs:191-275 | at most one drain marker is ever pushed, nothing is pushed after it, and the accepted messages are exactly the pushed ones |
| `Admission.NoLostDrain` | ractor/src/actor/actor_properties.rs:243-268 | whenever admission is closed, nobody is in flight and the marker is unsent, some thread is committed to sending it, whatever stale words are held |
| `Admission.QuiescentDrainHasMarker` | ractor/src/actor/actor_properties.rs:270-275 | once every thread is done after a drain, the marker was sent and is the last item of the mailbox |
| `Admission.RunFrozen` | ractor/src/actor/actor_properties.rs:218-275 | once the marker bit is set no later step of any run accepts a message |
| `Admission.DrainedLoopHandledEverything` | ractor/src/actor.rs:886-1003 | a loop that leaves through the marker has given the handler exactly the accepted messages, once each and in order, and no continuation accepts another |
| `Admission.StopPortContents` | ractor/src/actor/actor_cell.rs:158-192 | whatever messages the stop requests of a run may carry, the stop port holds none other |
| `Admission.DrainedReasonIffNotImitated` | ractor/src/actor.rs:945-1003 | for every set of messages that stop requests may carry, in any mixture: in all runs the exit reason "Drained" implies that the handled messages are the accepted ones and that none is accepted afterwards, if and only if that very reason is not in the set |
| `Admission.DrainedUnlessImitated` | ractor/src/actor.rs:945-1003 | in every run whose stop requests carry other messages, one that leaves with the reason "Drained" has handled exactly the accepted messages, for good |
| `Admission.ImitatedDrainLosesMessage` | ractor/src/actor.rs:961-996 | a run in which a stop with the reason "Drained" leaves an accepted message unhandled |
| `AdmissionTurns.HandlesIff` | ractor/src/actor/actor_cell.rs:150-192 | a step hands a message to the handler if and only if it is a turn, the message is next, and no signal, stop or supervision event waits |
| `AdmissionTurns.FailsIff` | ractor/src/actor.rs:945-1003 | the loop ends as failed if and only if the handler of a supervision event or a message failed, with no signal or stop waiting |
| `AdmissionTurns.KillEndsLoop` | ractor/src/actor/actor_cell.rs:150-192 | once a kill is signalled, in every continuation nothing is handled any more and the next turn ends the loop as killed |
| `AdmissionTurns.StopEndsLoop` | ractor/src/actor/actor_cell.rs:150-192 | once a stop is requested, in every continuation nothing is handled any more and the next turn ends the loop, for the reason of the stop unless a kill came first |
| `AdmissionTurns.SupervisionFirst` | ractor/src/actor/actor_cell.rs:150-192 | in every continuation, as many turns as supervision events are waiting take no message |
| `AdmissionTurns.SendIsAccepted` | ractor/src/actor/actor_properties.rs:218-236 | an undisturbed send to an actor below Draining whose admission and port are open is accepted, and leaves flags and count as they were |
| `AdmissionTurns.SendIsRefused` | ractor/src/actor/actor_properties.rs:191-215 | a send that finds the status at or above Draining is refused |
| `AdmissionTurns.DrainIsPublished` | ractor/src/actor/actor_properties.rs:270-275 | in every run, once admission is closed the status is at least Draining, unless the drain that closed it has this as its next step; and a running loop has its message port open |
| `PgLocksSafety.ForwardIsCovered` | ractor/src/pg.rs:313-387 | for every interleaving of lock-level steps, whatever is recorded forward is in the reverse index, in what a shutdown has drained, or being removed under the group lock |
| `PgLocksSafety.StoppedActorLeavesNothing` | ractor/src/pg.rs:446-493 | once a shutdown is done and nothing is in flight, the actor is in no member map, listener list or reverse-index entry |
| `PgLocksSafety.RegistrationPrecedesDrain` | ractor/src/pg.rs:625-692 | a registration that is being recorded for a stopping actor still has the shutdown waiting for its relations |
| `PgLocksSafety.CleanedUp` | ractor/src/pg.rs:230-245 | removing empty relations takes exactly them, and leaves an entry only if the shutdown will come to it |
| `PgLocksSafety.StepJoinInv` | ractor/src/pg.rs:313-387 | every lock-level step of a join keeps the invariant, what the join does to whom being in PgLocksEffects.JoinLeavesBehind |
| `PgLocksSafety.StepMonitorInv` | ractor/src/pg.rs:625-692 | every lock-level step of a monitor keeps the invariant |
| `PgLocksSafety.StepLeaveInv` | ractor/src/pg.rs:402-442 | every lock-level step of a leave keeps the invariant |
| `PgLocksSafety.StepDemonitorInv` | ractor/src/pg.rs:699-750 | every lock-level step of a demonitor keeps the invariant |
| `PgLocksSafety.StepStopInv` | ractor/src/actor/actor_cell.rs:333-354 | every lock-level step of a shutdown, from the published status to the last removal, keeps the invariant |
| `PgLocksEffects.CallBegins` | ractor/src/pg.rs:313-750 | a call that an idle thread begins is under way |
| `PgLocksEffects.JoinLeavesBehind` | ractor/src/pg.rs:313-387 | in every run, when the thread of a join lets go of the group, every actor of that very call that is not stopping is recorded in the group and in its own relations, and the step records nothing else; a join that returns without having taken the group found all its actors stopping |
| `PgLocksEffects.MonitorLeavesBehind` | ractor/src/pg.rs:625-692 | in every run, when the thread of a monitor lets go of the entry, the listener of that call is recorded in it and in its own relations unless it is stopping, and nothing else is; it lets go before it returns |
| `PgLocksEffects.LeaveLeavesBehind` | ractor/src/pg.rs:402-442 | in every run, when the thread of a leave returns, no actor of that call is in the group or has it in any relations, and no step of it removes anything else |
| `PgLocksEffects.DemonitorLeavesBehind` | ractor/src/pg.rs:699-750 | in every run, the last step of a demonitor removes the listener of that call from the entry and no step removes anything else; having found relations, it leaves the listener in none |
| `PgLocksIndex.QuiescentIndexIsExact` | ractor/src/pg.rs:247-262 | whenever no operation is in flight, the scope index is exactly the groups with members and no entry is empty |
| `PgLocksReverse.MembersAgree` | ractor/src/pg.rs:313-493 | in every run, whenever no operation is in flight, a membership is recorded forward if and only if the reverse index lists it, unless a shutdown has taken it out and not yet removed it |
| `PgLocksReverse.ListenersAgree` | ractor/src/pg.rs:625-750 | the same for listeners, in every run in which no demonitor overtakes a monitor |
| `PgLocksReverse.ListenersStayIff` | ractor/src/pg.rs:699-750 | a step leaves a listed listener without its forward entry if and only if it is that of a demonitor that found no relations and now removes a listener recorded since |
| `PgLocksReverse.OvertakenListener` | ractor/src/pg.rs:699-750 | a run that does: nothing in flight, nobody stopping, and the reverse index lists a listener that is not registered |
| `PgLocksProgress.SomebodyIsReady` | ractor/src/pg.rs:160-167 | the lock order: who holds relations waits for nothing, and who holds an entry waits at most for relations, so some process in flight waits for nothing |
| `PgLocksProgress.NoDeadlock` | ractor/src/pg.rs:160-167 | in every reachable state in which an operation or a shutdown is in flight, a step of one of them changes the state |
| `PgLocksProgress.EverythingCanFinish` | ractor/src/pg.rs:313-785 | from every reachable state all that is in flight can be brought to its end; then nothing is left of the stopping actors, and the memberships agree in both directions |
| `PgLocksSchedules.EveryStepLowers` | ractor/src/pg.rs:313-785 | every step of an operation or shutdown in flight changes nothing or takes it nearer to its end |
| `PgLocksSchedules.EveryFairScheduleFinishes` | ractor/src/pg.rs:313-785 | from every reachable state every schedule that begins nothing new and lets everybody try again and again finishes all that is in flight, for good, and leaves the tables tidy |
| `PgLocksSchedules.FairExists` | ractor/src/pg.rs:313-785 | from every state there is such a schedule: everybody in flight takes turns |
| `Pg.JoinMeaning` | ractor/src/pg.rs:313-387 | a join adds exactly the live actors to the members and to their reverse entries; everything else and every consistency condition is kept |
| `Pg.LeaveMeaning` | ractor/src/pg.rs:402-442 | a leave removes exactly the given actors from both directions |
| `Pg.MonitorMeaning` | ractor/src/pg.rs:625-660 | a live actor listens once to the group, in both directions; a stopped one does not |
| `Pg.MonitorScopeMeaning` | ractor/src/pg.rs:663-692 | the same for a whole scope |
| `Pg.DemonitorMeaning` | ractor/src/pg.rs:699-725 | the actor no longer listens to the group, in both directions |
| `Pg.DemonitorScopeMeaning` | ractor/src/pg.rs:728-750 | the same for a whole scope |
| `Pg.StopMeaning` | ractor/src/actor/actor_cell.rs:333-354 | a stopping actor leaves every group and listener list and its reverse entry; nobody else is touched |
| `Pg.ApplyAllValid` | ractor/src/pg.rs:313-785 | every sequence of operations keeps: index exact, members and listeners matching the reverse index, no duplicates, no empty entry |
| `Pg.IndexIsFilteredForwardMap` | ractor/src/pg.rs:582-602 | after any sequence of operations the index lookup equals filtering the forward map |
| `Pg.Extensional` | ractor/src/pg.rs:247-262 | the tables are determined by members and listeners: nothing else is stored |
| `PgState.ProcessGroups.AddGroupToIndex` | ractor/src/pg.rs:247-252 | adds the group to its scope |
| `PgState.ProcessGroups.RemoveGroupFromIndex` | ractor/src/pg.rs:255-262 | removes the group, and its scope once empty |
| `PgState.ProcessGroups.JoinScoped` | ractor/src/pg.rs:313-387 | the in-place join is the join on values |
| `PgState.ProcessGroups.LeaveScoped` | ractor/src/pg.rs:402-442 | the in-place leave is the leave on values |
| `PgState.ProcessGroups.MonitorGroup` | ractor/src/pg.rs:625-660 | the in-place monitor is the monitor on values |
| `PgState.ProcessGroups.MonitorWholeScope` | ractor/src/pg.rs:663-692 | the in-place scope monitor is the one on values |
| `PgState.ProcessGroups.DemonitorGroup` | ractor/src/pg.rs:699-725 | the in-place demonitor is the one on values |
| `PgState.ProcessGroups.DemonitorWholeScope` | ractor/src/pg.rs:728-750 | the in-place scope demonitor is the one on values |
| `PgState.ProcessGroups.DemonitorAll` | ractor/src/pg.rs:753-785 | drops every listener entry the reverse index lists |
| `PgState.ProcessGroups.LeaveAll` | ractor/src/pg.rs:446-493 | drops every membership the reverse index lists, and the entry |
| `PgState.ProcessGroups.Shutdown` | ractor/src/actor/actor_cell.rs:333-354 | publishing the status and the two drains are the stop on values |
| `Supervision.LinkMeaning` | ractor/src/actor/supervision.rs:47-83 | a link moves that child, and only that child, under the supervisor if both are Unstarted, Starting, Running or Upgrading and the child set is open; otherwise it changes nothing |
| `Supervision.UnlinkMeaning` | ractor/src/actor/supervision.rs:86-101 | only the current supervisor can be unlinked, and then the child has none |
| `Supervision.TakeChildrenMeaning` | ractor/src/actor/supervision.rs:104-122 | exactly that child set is closed and exactly its members lose their supervisor |
| `Supervision.OneChildSet` | ractor/src/actor/supervision.rs:47-122 | no actor is in two child sets |
| `Supervision.NewCellMeaning` | ractor/src/actor/supervision.rs:33-42 | a new cell is open, childless, unlinked and Unstarted, and nothing changes about the others |
| `Supervision.RunsKeep` | ractor/src/actor/supervision.rs:33-122 | in every run, cells being created meanwhile, a supervisor is p if and only if p has an open child set with that child, and a closed set never reopens |
| `SupervisionState.Forest.NewCell` | ractor/src/actor/supervision.rs:33-42 | a new cell has an open empty child set and no supervisor |
| `SupervisionState.Forest.Link` | ractor/src/actor/supervision.rs:47-83 | the in-place link is the link on values; it reports true exactly if both statuses are below Draining and the child set is open |
| `SupervisionState.Forest.Unlink` | ractor/src/actor/supervision.rs:86-101 | the in-place unlink is the unlink on values |
| `SupervisionState.Forest.TakeChildren` | ractor/src/actor/supervision.rs:104-122 | closes the set, cuts every child loose, and returns each child exactly once |
| `SupervisionState.Forest.Detach` | ractor/src/actor/supervision.rs:111-119 | the loop over the taken children cuts exactly those of that parent loose |
| `SupervisionState.Forest.TerminateNext` | ractor/src/actor/actor_cell.rs:369-378 | one round of the loop is one step of the worklist, makes progress, and signals the actor it pops exactly if that is Unstarted, Starting, Running or Upgrading |
| `SupervisionState.Forest.Terminate` | ractor/src/actor/actor_cell.rs:367-379 | the loop leaves the tree of the recursive depth-first form; kill signals go, in the order of the depth-first visits, to exactly the actors reachable from the root that are Unstarted, Starting, Running or Upgrading |
| `Terminate.WorkSplits` | ractor/src/actor/actor_cell.rs:367-379 | what is on top of the stack is finished in full before what lies below |
| `Terminate.WorklistIsDepthFirst` | ractor/src/actor/actor_cell.rs:367-379 | the worklist visits the same actors in the same order and leaves the same tree as the recursive form, for every tree, cyclic or not |
| `Terminate.VisitsOnlyReachable` | ractor/src/actor/actor_cell.rs:367-379 | only actors at or below the root are visited |
| `Terminate.VisitsClose` | ractor/src/actor/actor_cell.rs:367-379 | the visited child sets, and no others, become closed |
| `Terminate.ClosesExactlyTheReachable` | ractor/src/actor/actor_cell.rs:367-379 | run alone, exactly the actors reachable from the root are visited and exactly their child sets are closed |
| `Terminate.AmongOthersStillCloses` | ractor/src/actor/actor_cell.rs:367-379 | after any number of turns, whatever creations, links, unlinks, takes and status changes happen in between, the tree is valid, every visited child set is closed for good, and all that was on the stack at an earlier turn is visited or still on it |
| `Terminate.AmongOthersVisitsAllFound` | ractor/src/actor/actor_cell.rs:367-379 | whatever a turn finds below the actor it visits, created meanwhile or not, is from then on visited or still on the stack |
| `Terminate.EndsIffBounded` | ractor/src/actor/actor_cell.rs:367-379 | for every set of actors that may be created: the worklist ends in all runs from all trees, in every order of children, if and only if the set is finite |
| `Terminate.BoundedCreationEnds` | ractor/src/actor/actor_cell.rs:367-379 | among others that create finitely many actors the worklist ends, whatever else they do |
| `Terminate.EndlessCreation` | ractor/src/actor/actor_cell.rs:367-379 | for every infinite set of actors that may be created and every order of children, one run in which the worklist never ends |
| `Terminate.AloneIsDepthFirst` | ractor/src/actor/actor_cell.rs:367-379 | undisturbed, the turns end with the tree and the visits of the recursive form |
| `SupervisionLocks.ActKeeps` | ractor/src/actor/supervision.rs:47-122 | each step under the mutation lock leaves a tree whose completion by the rest of the update is consistent |
| `SupervisionCleanup.LinkedWhenUnlocked` | ractor/src/actor/supervision.rs:47-122 | in every reachable state with the mutation lock free, supervisors and child sets agree |
| `SupervisionCleanup.TakingIsTheBarrier` | ractor/src/actor/supervision.rs:104-122 | closing the child set under the lock after Stopping was published ends every link that saw an older status |
| `SupervisionCleanup.BarrierHolds` | ractor/src/actor/supervision.rs:47-59 | from then on no step links the actor again |
| `SupervisionCleanup.CleanedIsGone` | ractor/src/actor.rs:504-522 | after an actor's cleanup, in every later state of every run it is Stopped, its child set is closed, it has no supervisor and it is in no child set |
| `SupervisionEffects.UpdateTakesEffect` | ractor/src/actor/supervision.rs:47-122 | in every run, however other threads and status changes interleave, an update that comes to release the lock has changed the structure as the link, unlink or take of the same name does to the tree as it was when the lock was taken; a link is made only if neither was at or above Draining then and the child set was open, and refused only if one of them is by now or the child set was closed |
| `SupervisionEffects.HolderFinishes` | ractor/src/actor/supervision.rs:47-122 | in every state of every run the holder of the lock can finish and release it by its own steps alone |
| `SupervisionEffects.TakenAreTerminated` | ractor/src/actor/actor_cell.rs:367-379 | in every run, every child a cleanup has taken has had its own child set closed by the time the cleanup leaves the supervisor |
| `Lifecycle.RacingStatusChanges` | ractor/src/actor/actor_cell.rs:333-364 | however status changes race, the actor is deregistered once if any reaches Stopping, waiters are woken once if any reaches Stopped, and the status is the maximum |
| `Lifecycle.LifeIsSeenWhole` | ractor/src/actor.rs:774-933 | on every path, cancellation included, the supervisor sees no event if the actor never ran, otherwise exactly one terminal event, last, after ActorStarted if it started |
| `Lifecycle.LifeIsCleanedUpOnce` | ractor/src/actor.rs:487-536 | on every path the cleanup happens exactly once and is the last thing to happen: Stopping, the termination of the children, the terminal event if the actor ran, leaving the supervisor, Stopped, in this order |
| `Lifecycle.LastEventMeaning` | ractor/src/actor.rs:810-933 | what the last event a supervisor sees is, in terms of the hooks and turns alone: failed if and only if a hook or a turn failed; the reason of a stop whose post-stop hook went well; killed, with the state if a turn was signalled and without if a hook was; cancelled if and only if its own task was cancelled |
| `Lifecycle.LogMeaning` | ractor/src/actor.rs:774-933 | Starting, Running and Stopping are published exactly when the hooks and turns say, statuses only rise, ActorStarted directly follows Running, and the children are terminated once more exactly if a signal came |
| `LifecycleTask.Task.Advance` | ractor/src/actor/actor_cell.rs:333-364 | publishes a status among those of other threads, keeping the accounts of deregistration and waking |
| `LifecycleTask.Task.Cleanup` | ractor/src/actor.rs:504-522 | cleans up if armed, and only then; afterwards disarmed and Stopped |
| `LifecycleTask.Task.Drop` | ractor/src/actor.rs:525-536 | the guard going out of scope cleans up if nobody has, announcing cancellation if the actor ran |
| `LifecycleTask.Task.MessageLoop` | ractor/src/actor.rs:886-902 | leaves with the first turn that does not continue |
| `LifecycleTask.Task.ProcessingLoop` | ractor/src/actor.rs:854-933 | does what the life prescribes up to its terminal event, which is the one that LastEventMeaning describes |
| `LifecycleTask.Task.Start` | ractor/src/actor.rs:774-851 | on every early return and at the end, what is left to the guard is exactly the rest of the life |
| `LifecycleTask.Task.Live` | ractor/src/actor.rs:487-933 | a whole life has exactly the prescribed effects, ends disarmed and Stopped, deregistered once, waiters woken once; its effects hold exactly one cleanup, and what they emit is what the supervisor is to see |
| `StopWait.ReturnedMeansStopped` | ractor/src/actor/actor_properties.rs:335-341 | in every run of waiters, timeouts and status changes, nobody returns from a wait before the actor has stopped |
| `StopWait.AnnouncementComes` | ractor/src/actor/actor_cell.rs:356-361 | a published stop has been announced, or the one thread that published it has only to take its next step |
| `StopWait.NobodySleepsForever` | ractor/src/actor/actor_properties.rs:335-357 | once the stop is announced, every waiter, created before or after, is out of its wait by its next two steps, however the others are interleaved, and has returned unless it timed out |
| `StopWait.PermitIsNeverTaken` | ractor/src/actor/actor_properties.rs:353-357 | the permit left for a waiter created after the stop is never consumed: the status check and the count of announcements serve every waiter |
| `StopWait.OutcomeIsFinal` | ractor/src/actor/actor_properties.rs:335-357 | in every run a waiter that has returned or timed out stays so, and only its own timeout ends a wait as timed out |
| `Election.CompareFlips` | ractor_cluster/src/node.rs:392-396 | comparing two names from either side gives opposite answers, and equality only for equal names |
| `ElectionOutcomes.CompareMeaning` | ractor_cluster/src/node.rs:392-396 | a name sorts before another if and only if at the first difference its letter is smaller or it ends |
| `Election.SomeoneSurvives` | ractor_cluster/src/node.rs:374-426 | for all names, nonces and ids the elected are a non-empty subset of non-empty candidates |
| `ElectionOutcomes.ElectMeaning` | ractor_cluster/src/node.rs:374-426 | for all names, nonces and ids, with nonces missing or repeated: elected are exactly the candidates of the favoured direction with the least nonce, and among accepted ones that share it, or have none, only the oldest |
| `Election.ElectedIsBest` | ractor_cluster/src/node.rs:374-426 | with distinct names and distinct nonces the election is the maximum of a strict order: preferred direction first, then smaller nonce |
| `Election.ExactlyOne` | ractor_cluster/src/node.rs:374-426 | with distinct names and distinct nonces exactly one candidate is elected |
| `Election.PathIndependence` | ractor_cluster/src/node.rs:374-426 | electing among some and then with the rest elects what electing among all does |
| `Election.BothNodesAgree` | ractor_cluster/src/node.rs:374-426 | the two nodes, each by its own name and role, elect the same physical connection |
| `Election.LastNameInitiates` | ractor_cluster/src/node.rs:386-409 | when both nodes have connected, the survivor was initiated by the node whose name sorts last, and has the least nonce of those |
| `ElectionNode.CommitKeepsOne` | ractor_cluster/src/node.rs:537-568 | after a commit one connection to the peer is authenticated, the best one if it stood, and the best one is no loser |
| `ElectionNode.WinnerIsNotRejected` | ractor_cluster/src/node.rs:465-494 | the best connection is never told that another one continues; every answer to every connection is in ElectionOutcomes.CheckMeaning |
| `ElectionNode.OtherCommitOk` | ractor_cluster/src/node.rs:537-568 | authenticating a session with another peer changes nothing for this one |
| `ElectionNode.WinnerExists` | ractor_cluster/src/node.rs:374-426 | of any connections between two nodes one is the best |
| `ElectionNode.BestIsNeverStopped` | ractor_cluster/src/node.rs:537-568 | in every run of the two nodes, sessions ending by themselves at any time, neither stops the best connection |
| `ElectionNode.BothKeepTheSameConnection` | ractor_cluster/src/node.rs:719-732 | once both nodes have authenticated the best connection it is the only one authenticated on either, in every continuation in which its sessions do not end |
| `ElectionNode.AtMostOneAuthenticated` | ractor_cluster/src/node.rs:537-568 | in every reachable state each node has at most one authenticated connection to the other |
| `ElectionNode.EndingForgets` | ractor_cluster/src/node.rs:776-861 | where a session ends, in any reachable state and whether or not it was stopped, its connection is no longer authenticated, and the other node is as before |
| `ElectionNode.BestGetsAuthenticated` | ractor_cluster/src/node.rs:537-568 | whenever the best connection authenticates it ends up authenticated |
| `ElectionNode.ReadyIffAuthenticated` | ractor_cluster/src/node.rs:570-586 | in every reachable state a connection is elected if and only if it is authenticated |
| `ElectionOutcomes.CheckMeaning` | ractor_cluster/src/node.rs:465-494 | in every reachable state, for every registered connection: another continues if and only if some other authenticated connection beats it, there is no other if and only if no other is authenticated, and it continues itself if and only if others are and it beats them all |
| `ElectionOutcomes.CommitMeaning` | ractor_cluster/src/node.rs:537-568 | in every reachable state, when a registered connection authenticates, of it and those authenticated before exactly the one that beats all others is authenticated afterwards, and exactly the rest of them are stopped |
| `ElectionOutcomes.RegisterMeaning` | ractor_cluster/src/node.rs:429-444 | in every reachable state, a connection whose session is open and registers is from then on a session with the peer, with its own direction and nonce |
| `ElectionOutcomes.RegisterNonce` | ractor_cluster/src/node.rs:429-444 | a nonce of zero counts as none, and no other session is touched |
| `ElectionState.ElectSessions` | ractor_cluster/src/node.rs:374-426 | the successive filters of a vector compute the election |
| `ElectionState.Retain` | ractor_cluster/src/node.rs:397-420 | keeps exactly the candidates that pass the test |
| `ElectionState.LeastNonce` | ractor_cluster/src/node.rs:402-408 | finds the least nonce, or that there is none |
| `ElectionState.OldestId` | ractor_cluster/src/node.rs:413-420 | finds the least session id |
| `ElectionState.NodeServer.OpenSession` | ractor_cluster/src/node.rs:652-661 | adds an unregistered session |
| `ElectionState.NodeServer.RegisterSession` | ractor_cluster/src/node.rs:429-444 | records the peer name and its nonce, zero meaning none |
| `ElectionState.NodeServer.CandidatesForPeer` | ractor_cluster/src/node.rs:446-463 | collects exactly the authenticated sessions of the peer |
| `ElectionState.NodeServer.CheckCandidate` | ractor_cluster/src/node.rs:465-494 | the in-place check gives the reply of the check on values, which CheckMeaning describes for every reachable state |
| `ElectionState.NodeServer.CommitAuthenticated` | ractor_cluster/src/node.rs:537-568 | authenticates, elects, and un-authenticates exactly the losers |
| `ElectionState.NodeServer.IsElected` | ractor_cluster/src/node.rs:570-586 | whether the session is authenticated and elected |
| `ElectionState.NodeServer.SessionEnded` | ractor_cluster/src/node.rs:776-861 | forgets the session in all three tables |
| `RemoteCalls.SweepMeaning` | ractor_cluster/src/remote_actor.rs:98-142 | a sweep inspects min(pending, 16) distinct requests and removes exactly those inspected whose caller gave up; an open request is never removed |
| `RemoteCalls.SweepRotates` | ractor_cluster/src/remote_actor.rs:98-142 | after a sweep the requests not inspected come first, in order, then the inspected ones that stay |
| `RemoteCalls.RemoveRotates` | ractor_cluster/src/remote_actor.rs:144-150 | removing a request leaves the order of inspection of the others |
| `RemoteCalls.AddRotates` | ractor_cluster/src/remote_actor.rs:191-218 | a new request gets at most one place ahead of a waiting one |
| `RemoteCalls.OneMessage` | ractor_cluster/src/remote_actor.rs:180-244 | one message removes an abandoned request or moves it up by at least fifteen places |
| `RemoteCalls.AbandonedRequestIsReclaimed` | ractor_cluster/src/remote_actor.rs:98-218 | an abandoned request is gone after Bound(n) messages, n being the number pending, whatever the messages are |
| `RemoteCalls.BoundIsClose` | ractor_cluster/src/remote_actor.rs:33-142 | that bound is at most the ceiling of n/15, plus one |
| `RemoteCallsBound.BoundIsReached` | ractor_cluster/src/remote_actor.rs:98-218 | for every n a run leads to n pending requests, one of which, abandoned then, is still there after Bound(n) - 1 more messages: the bound is exact |
| `RemoteCalls.RepliesReachTheirCallers` | ractor_cluster/src/remote_actor.rs:92-238 | every reply goes to the port of the call it answers, and no call is answered twice; which replies are delivered is in RemoteCallsAnswers |
| `RemoteCallsAnswers.ReplyIsDelivered` | ractor_cluster/src/remote_actor.rs:191-241 | in every run, the first reply to a call that was sent is delivered to the port of that call, if the caller has not given up by then |
| `RemoteCallsAnswers.OnlyFirstRepliesAreDelivered` | ractor_cluster/src/remote_actor.rs:191-241 | in every run, whatever is delivered is the first reply to a call that was sent, at its own port |
| `RemoteCallsState.FirstAfter` | ractor_cluster/src/remote_actor.rs:111-121 | finds the first request after the cursor |
| `RemoteCallsState.RemoteActorState.Inspect` | ractor_cluster/src/remote_actor.rs:108-125 | the two loops fill the array with the tags to inspect, in order |
| `RemoteCallsState.RemoteActorState.ReclaimInspected` | ractor_cluster/src/remote_actor.rs:127-135 | the loop removes exactly the inspected requests whose caller gave up |
| `RemoteCallsState.RemoteActorState.CleanupClosed` | ractor_cluster/src/remote_actor.rs:98-142 | the in-place cleanup is the sweep on values |
| `RemoteCallsState.RemoteActorState.RemovePending` | ractor_cluster/src/remote_actor.rs:144-150 | removes the request and returns its port |
| `RemoteCallsState.RemoteActorState.NextTag` | ractor_cluster/src/remote_actor.rs:92-95 | tags count up from one |
| `RemoteCallsState.RemoteActorState.HandleSerialized` | ractor_cluster/src/remote_actor.rs:180-244 | the in-place handler is the handler on values; a reply to a pending call whose caller has not given up is sent to the port of that call, and nothing else is sent |
| `Philosophers.Fork.HandleOne` | ractor/examples/philosophers.rs:62-121 | the in-place handler is the fork handler on values |
| `Philosophers.Fork.DrainBacklog` | ractor/examples/philosophers.rs:150-160 | the loop handles the backlog until a message is handed back, which returns to the front |
| `Philosophers.Fork.Handle` | ractor/examples/philosophers.rs:141-162 | the in-place turn is the fork's turn on values |
| `Philosophers.Philosopher.StartThinking` | ractor/examples/philosophers.rs:274-286 | thinking in a new round, with a scheduled wake-up for that round |
| `Philosophers.Philosopher.StartEating` | ractor/examples/philosophers.rs:289-312 | eating in a new round, both forks told, with a scheduled end |
| `Philosophers.Philosopher.RequestMissingForks` | ractor/examples/philosophers.rs:315-334 | asks exactly for forks neither held nor asked for |
| `Philosophers.Philosopher.Handle` | ractor/examples/philosophers.rs:352-465 | the in-place turn is the philosopher's turn on values |
| `PhilosophersRing.Turn` | ractor/examples/philosophers.rs:62-162 | a fork's turn on any message keeps the fork's side of the protocol, takes no error branch and casts at most one message |
| `PhilosophersRing.MoveKeeps` | ractor/examples/philosophers.rs:274-465 | anything a philosopher may do to a fork in a turn keeps the protocol of that fork |
| `PhilosophersRing.HandlerMoves` | ractor/examples/philosophers.rs:352-465 | every turn of a philosopher is one such move at each of its forks, with no error |
| `PhilosophersRing.RunInv` | ractor/examples/philosophers.rs:528-555 | every run of the ring keeps the invariant |
| `PhilosophersSafety.ForkIsInOnePlace` | ractor/examples/philosophers.rs:62-162 | in every reachable state of every ring each fork is on the table, on its way, in one hand or on its way back: exactly one of these, once |
| `PhilosophersSafety.NeighboursNeverEatTogether` | ractor/examples/philosophers.rs:404-465 | two philosophers that share a fork never eat at once |
| `PhilosophersSafety.EatingTakesBothForks` | ractor/examples/philosophers.rs:289-312 | who eats holds both forks |
| `PhilosophersSafety.NoErrorBranch` | ractor/examples/philosophers.rs:86-118 | no branch that logs an error is ever taken |
| `PhilosophersSafety.OneRequestOutstanding` | ractor/examples/philosophers.rs:315-334 | a fork is asked for exactly if one request for it is in the mailbox, in the backlog or granted and on its way |
| `PhilosophersSafety.BacklogIsTheOtherUser` | ractor/examples/philosophers.rs:147-160 | at most one request waits at a fork, of the user that does not own it, and none at an unowned fork |
| `PhilosophersSafety.UsedOnlyByOwner` | ractor/examples/philosophers.rs:86-101 | a use is announced only by the owner, and before it puts the fork down |
| `PhilosophersRest.TurnTells` | ractor/examples/philosophers.rs:62-162 | a used fork with a request waiting has told its owner to give it up |
| `PhilosophersRest.RestIsAClosedCycle` | ractor/examples/philosophers.rs:62-465 | a reachable state with nothing pending is one closed cycle: all hungry, each holding the clean fork of the same side; otherwise something can still happen |
| `PhilosophersRest.RestIsFinal` | ractor/examples/philosophers.rs:352-465 | from such a state no philosopher ever changes again |
| `PhilosophersStuck.EveryTableCanStarve` | ractor/examples/philosophers.rs:132-138 | for every size of the table there is a run into that closed cycle: the forks start unowned and dirty |
| `PhilosophersFate.NextOnDemand` | ractor/examples/philosophers.rs:62-162 | in every reachable state a fork that is put down, or whose owner is told to, has been used and is waited for |
| `PhilosophersFate.RunNoReturn` | ractor/examples/philosophers.rs:62-465 | once all forks are bound to the same side and nobody will eat by its mailbox, this stays so in every continuation |
| `PhilosophersChance.FreeCanEat` | ractor/examples/philosophers.rs:62-465 | a philosopher neither of whose forks is bound to its neighbour has a continuation in which somebody eats, whatever is in the mailboxes |
| `PhilosophersChance.NobodyEatsAgainIff` | ractor/examples/philosophers.rs:62-465 | from a reachable state nobody ever eats again, whatever happens, if and only if nobody will by its mailbox and all forks are bound to the same side: with that user clean, asked for first by it, or given up to it |
| `PhilosophersChance.TooLateEarly` | ractor/examples/philosophers.rs:62-465 | for every table a run after which nobody will ever eat although nobody holds a fork and no fork is clean, and then another such state in which everyone is thinking |
| `Bytes.IntegerRoundTrip` | ractor/src/serialization.rs:48-61 | every signed or unsigned integer of every width is read back from its big-endian bytes |
| `Bytes.BytesAreResidues` | ractor/src/serialization.rs:48-61 | read as a number, the bytes of an integer are the integer modulo the number of values of their width: two's complement |
| `Bytes.IntegersHaveResidue` | ractor/src/serialization.rs:48-61 | the integer read from bytes is the one of its range with the residue that the bytes spell |
| `Bytes.BytesRoundTrip` | ractor/src/serialization.rs:48-61 | every byte string is the bytes of the integer read from it |
| `Bytes.FirstByteCountsMost` | ractor/src/serialization.rs:48-61 | the encoding is big-endian: the first byte has the greatest weight |
| `Bytes.VectorRoundTrip` | ractor/src/serialization.rs:120-144 | every vector of integers of every width is read back from its bytes |
| `Bytes.VectorBytesRoundTrip` | ractor/src/serialization.rs:120-144 | bytes are those of the vector read from them if and only if their length is a multiple of the width |
| `Bytes.ElementCount` | ractor/src/serialization.rs:130-133 | the number of elements read is the length divided by the width, rounded down |
| `Bytes.EncodeVector` | ractor/src/serialization.rs:123-129 | the loop over a preallocated buffer writes the bytes of the vector |
| `Bytes.DecodeVector` | ractor/src/serialization.rs:130-141 | the loop reads the vector |
| `Framing.UnpackOfPack` | ractor_cluster_derive/src/codegen.rs:301-352 | unpacking a packed list of fields returns it |
| `Framing.PackOfUnpack` | ractor_cluster_derive/src/codegen.rs:224-234 | bytes accepted as n fields are exactly the packing of those fields |
| `Framing.OneFieldCount` | ractor_cluster_derive/src/codegen.rs:224-234 | no bytes are accepted for two different numbers of fields |
| `Framing.PacksIffShort` | ractor_cluster_derive/src/codegen.rs:301-318 | packing fails exactly if the frames would not fit in a vector |
| `Framing.PackArgs` | ractor_cluster_derive/src/codegen.rs:301-318 | the emitted serializing code packs the fields |
| `Framing.UnpackArgs` | ractor_cluster_derive/src/codegen.rs:321-352 | the emitted deserializing code, on every input, gives the fields or an error, with every slice and sum in range |
| `Framing.PayloadRoundTrip` | ractor/src/serialization.rs:48-95 | a payload that is read is the payload of the value read if and only if it is canonical for its type |
| `Framing.MessageRoundTrip` | ractor_cluster_derive/src/codegen.rs:224-352 | every typed message that serializes is deserialized to itself |
| `Framing.AcceptedBytesRoundTrip` | ractor_cluster_derive/src/codegen.rs:224-352 | accepted bytes are the serialization of the message read if and only if every field is canonical |
| `Framing.TrailingByteIsIgnored` | ractor/src/serialization.rs:85-95 | two different byte strings that are read as the same message |
| `Queues.OldestIsFront` | ractor/src/factory/queues.rs:294-310 | the oldest job of a priority is the front of its bucket, and popping the bucket removes it from the whole |
| `Queues.FreshOf` | ractor/src/factory/queues.rs:333-354 | expiry in each bucket is expiry in the whole, in order |
| `Queues.PopAllIsStableSort` | ractor/src/factory/queues.rs:294-301 | popping until empty gives the jobs by priority, and by arrival within a priority |
| `Queues.StableSortIsUnique` | ractor/src/factory/queues.rs:294-301 | only one order does that |
| `Queues.JobsAreConserved` | ractor/src/factory/queues.rs:284-354 | in every run the pushed jobs are the popped, discarded, expired and waiting ones, as multisets |
| `QueuesState.PriorityQueue.Len` | ractor/src/factory/queues.rs:284-286 | the number of waiting jobs |
| `QueuesState.PriorityQueue.IsEmpty` | ractor/src/factory/queues.rs:289-291 | whether no job waits |
| `QueuesState.PriorityQueue.PopFront` | ractor/src/factory/queues.rs:294-301 | removes the oldest of the most urgent jobs |
| `QueuesState.PriorityQueue.DiscardOldest` | ractor/src/factory/queues.rs:303-310 | removes the oldest of the least urgent jobs |
| `QueuesState.PriorityQueue.Peek` | ractor/src/factory/queues.rs:312-320 | the job that would be popped, without removing it |
| `QueuesState.PriorityQueue.PushBack` | ractor/src/factory/queues.rs:323-330 | the job arrives last |
| `QueuesState.PriorityQueue.RemoveExpired` | ractor/src/factory/queues.rs:333-354 | removes exactly the expired jobs, keeps the order of the rest, and hands every expired job to the discard handler once, by priority and then by arrival |

## Left out

- Weak memory orderings, executors, wakers and the inside of channels.
- Notifications about process-group changes, their order, and the default-scope wrappers.
- The correspondence of listeners and reverse index after a demonitor has overtaken a monitor: it then fails, and is stated for whole operations (`Pg`) and for the other runs (`PgLocksReverse.ListenersAgree`).
- Monitors of actors (an optional feature), the name and pid registries, and stopping or draining all children.
- The compatibility path of session checks that cannot identify the caller, node events, and the handshake itself.
- Agreement of the two nodes when names are equal or nonces missing or repeated: whom each node elects then is stated (`ElectionOutcomes.ElectMeaning`), that they elect the same is not.
- The wrap-around of the 64-bit message tag and of the philosophers' 16-bit round counters: both count without bound here.
- The time and failure metrics of the philosophers.
- Allocation failure while packing, other than by the length limit; floating-point, string, character and boolean-vector payloads.
- The parsing and generation of message code by procedural macros, other than the code it emits for fields.
- The default (unbucketed) queue, the factory, its workers, routing and rate limits.
- The inside of the notifier: waiters register, are woken and are dropped in single steps (`StopWait`).
- Lifecycle.LifeIsSeenWhole: events count as emitted whether or not a supervisor is linked at that moment.
- LifecycleTask.Task.Cleanup: notifying the supervisor and leaving it are recorded as effects; what they do to the tree is in `SupervisionCleanup`.
- QueuesState.PriorityQueue.PushBack: a priority index outside the array makes the source panic; here it is a precondition.
