/**
 Every schedule of the operations and shutdowns in flight comes to an end: each step that
 changes anything takes one of them nearer to its end, so a schedule that leaves nobody out
 finishes them all.
 */
module PgLocksSchedules {
  import opened Options
  import opened PgNames
  import opened PgLocks
  import opened PgLocksInvariant
  import opened PgLocksSafety
  import opened PgLocksReverse
  import opened PgLocksProgress

  // ------------------------------------------------------------------ every step counts

  lemma JoinWaits(s: State, t: ThreadId)
    requires t in s.threads && s.threads[t].Joining? && Waits(s, s.threads[t])
    ensures StepJoin(s, t, s.threads[t].join) == s
  {
  }

  lemma OthersWait(s: State, t: ThreadId)
    requires t in s.threads && Waits(s, s.threads[t]) && !s.threads[t].Joining?
    ensures StepThread(s, t, Proceed) == s
  {
  }

  lemma ThreadStep(s: State, t: ThreadId)
    requires t in s.threads
    ensures var s' := Next(s, Thread(t, Proceed));
            s' == s || (Lower(s', s) && s'.stops == s.stops)
  {
    hide Waits, StepJoin, StepMonitor, StepLeave, StepDemonitor, Total, Only, Work;
    if !s.threads[t].Idle? {
      if Waits(s, s.threads[t]) {
        if s.threads[t].Joining? { JoinWaits(s, t); } else { OthersWait(s, t); }
      } else {
        ThreadAdvances(s, t);
        AdvancedWork(s, Next(s, Thread(t, Proceed)), t);
      }
    }
  }

  lemma StopStep(s: State, a: Actor, pick: Slot)
    requires a in s.stops
    ensures var s' := Next(s, Shutdown(a, pick));
            s' == s || (Lower(s', s) && s'.stops.Keys == s.stops.Keys)
  {
    hide StepStop, Total, Stages;
    if pick in Drained(s.stops[a]) && EntryOf(pick) !in s.locked {
      DropAdvances(s, a, pick);
      StopAdvancedWork(s, StepStop(s, a, pick), a);
    } else if s.stops[a].Done? || StopWaits(s, s.stops[a]) || Drained(s.stops[a]) != {} {
      StopStays(s, a, pick);
    } else {
      StageAdvances(s, a, pick);
      StopAdvancedWork(s, StepStop(s, a, pick), a);
    }
  }

  lemma StopStays(s: State, a: Actor, pick: Slot)
    requires a in s.stops && !(pick in Drained(s.stops[a]) && EntryOf(pick) !in s.locked)
    requires s.stops[a].Done? || StopWaits(s, s.stops[a]) || Drained(s.stops[a]) != {}
    ensures StepStop(s, a, pick) == s
  {
  }

  /** Every step of what is in flight either changes nothing or takes it nearer to its end. */
  lemma EveryStepLowers(s: State, e: Event)
    requires Goes(e)
    ensures Next(s, e) == s || (Lower(Next(s, e), s) && Next(s, e).stops.Keys == s.stops.Keys)
  {
    hide Lower, StepThread, StepStop;
    match e
    case Thread(t, _) => if t in s.threads { ThreadStep(s, t); }
    case Shutdown(a, pick) => if a in s.stops { StopStep(s, a, pick); }
  }

  // ------------------------------------------------------------------ schedules

  type Schedule = nat -> Event

  function After(s: State, schedule: Schedule, n: nat): State
  {
    if n == 0 then s else Next(After(s, schedule, n - 1), schedule(n - 1))
  }

  /** At turn `n` the schedule lets the process try its next step: a shutdown that has drained
      relationships left picks any of them. */
  predicate Tries(s: State, schedule: Schedule, p: Proc, n: nat)
  {
    match p
    case T(t) => schedule(n) == Thread(t, Proceed)
    case S(a) =>
      && schedule(n).Shutdown? && schedule(n).actor == a
      && var now := After(s, schedule, n);
         a in now.stops && Drained(now.stops[a]) != {} ==> schedule(n).pick in Drained(now.stops[a])
  }

  ghost predicate TriesAgain(s: State, schedule: Schedule, p: Proc, n: nat)
  {
    exists m :: m >= n && Tries(s, schedule, p, m)
  }

  predicate Present(s: State, p: Proc)
  {
    match p
    case T(t) => t in s.threads
    case S(a) => a in s.stops
  }

  /** Nothing new is begun, and every process tries again and again. It need not be let in
      when it is not blocked, and nothing is said about how long it has to wait. */
  ghost predicate Fair(s: State, schedule: Schedule)
  {
    && (forall n :: Goes(schedule(n)))
    && (forall p, n :: Present(s, p) ==> TriesAgain(s, schedule, p, n))
  }

  lemma SamePresent(s: State, e: Event)
    requires Goes(e)
    ensures forall p :: Present(Next(s, e), p) <==> Present(s, p)
  {
    hide StepJoin, StepMonitor, StepLeave, StepDemonitor, StepStop;
    match e
    case Thread(t, _) => if t in s.threads { ThreadFrames(s, t); }
    case Shutdown(a, pick) => if a in s.stops { StopForward(s, a, pick); EveryStepLowers(s, e); }
  }

  lemma ThreadFrames(s: State, t: ThreadId)
    requires t in s.threads
    ensures Next(s, Thread(t, Proceed)).threads.Keys == s.threads.Keys && Next(s, Thread(t, Proceed)).stops == s.stops
  {
    hide Waits, StepJoin, StepMonitor, StepLeave, StepDemonitor, Work;
    if !s.threads[t].Idle? {
      if Waits(s, s.threads[t]) {
        if s.threads[t].Joining? { JoinWaits(s, t); } else { OthersWait(s, t); }
      } else {
        ThreadAdvances(s, t);
      }
    }
  }

  lemma {:induction false} AfterInv(s: State, schedule: Schedule, n: nat)
    requires Inv(s) && Held(s) && forall k :: Goes(schedule(k))
    ensures Inv(After(s, schedule, n)) && Held(After(s, schedule, n))
    ensures forall p :: Present(After(s, schedule, n), p) <==> Present(s, p)
  {
    hide Inv, Held, Next, Present;
    if n > 0 {
      var before := After(s, schedule, n - 1);
      AfterInv(s, schedule, n - 1);
      NextInv(before, schedule(n - 1));
      NextHeld(before, schedule(n - 1));
      SamePresent(before, schedule(n - 1));
    }
  }

  /** A process that waits for nothing moves when it tries. */
  lemma ReadyMoves(s: State, schedule: Schedule, p: Proc, n: nat)
    requires var now := After(s, schedule, n); Ready(now, p) && Unblocked(now, p)
    requires Tries(s, schedule, p, n)
    ensures Lower(After(s, schedule, n + 1), After(s, schedule, n))
  {
    hide Lower, Waits, StopWaits, StepThread, StepStop, Only, Work, Stages;
    var now := After(s, schedule, n);
    match p
    case T(t) =>
      ThreadAdvances(now, t);
      AdvancedWork(now, Next(now, schedule(n)), t);
      FewerIsLower(now, Next(now, schedule(n)));
    case S(a) =>
      var pick := schedule(n).pick;
      if Drained(now.stops[a]) != {} { DropAdvances(now, a, pick); } else { StageAdvances(now, a, pick); }
      StopAdvancedWork(now, Next(now, schedule(n)), a);
      FewerStopsIsLower(now, Next(now, schedule(n)));
  }

  lemma FewerIsLower(s: State, s': State)
    requires ThreadWork(s') < ThreadWork(s)
    ensures Lower(s', s)
  {
  }

  lemma FewerStopsIsLower(s: State, s': State)
    requires s'.threads == s.threads
    requires StopStages(s') < StopStages(s) || (StopStages(s') == StopStages(s) && StopSlots(s') < StopSlots(s))
    ensures Lower(s', s)
  {
  }

  /** Before a process that could move has tried, something has moved. */
  lemma SomethingMoves(s: State, schedule: Schedule, n: nat) returns (m: nat)
    requires Inv(s) && Held(s) && Fair(s, schedule) && !Finished(After(s, schedule, n))
    ensures m > n && Lower(After(s, schedule, m), After(s, schedule, n))
  {
    hide Inv, Base, Held, Lower, Next, Finished, Ready, Unblocked, Present, Tries;
    var now := After(s, schedule, n);
    AfterInv(s, schedule, n);
    BaseOf(now);
    var p := SomebodyIsReady(now);
    ReadyIsPresent(now, p);
    assert TriesAgain(s, schedule, p, n);
    var tries :| tries >= n && Tries(s, schedule, p, tries);
    m := n;
    while m < tries && After(s, schedule, m + 1) == now
      invariant n <= m <= tries && After(s, schedule, m) == now
    {
      m := m + 1;
    }
    if m < tries {
      EveryStepLowers(now, schedule(m));
    } else {
      ReadyMoves(s, schedule, p, m);
    }
    m := m + 1;
  }

  lemma BaseOf(s: State)
    requires Inv(s)
    ensures Base(s)
  {
  }

  lemma ReadyIsPresent(s: State, p: Proc)
    requires Ready(s, p)
    ensures Present(s, p)
  {
  }

  lemma {:induction false} FinishesFrom(s: State, schedule: Schedule, n: nat) returns (m: nat)
    requires Inv(s) && Held(s) && Fair(s, schedule)
    ensures Finished(After(s, schedule, m))
    decreases ThreadWork(After(s, schedule, n)), StopStages(After(s, schedule, n)), StopSlots(After(s, schedule, n))
  {
    hide Inv, Held, Fair, Finished, After, ThreadWork, StopStages, StopSlots;
    if Finished(After(s, schedule, n)) {
      m := n;
    } else {
      var k := SomethingMoves(s, schedule, n);
      m := FinishesFrom(s, schedule, k);
    }
  }

  /** What is finished stays as it is. */
  lemma {:induction false} FinishedStays(s: State, schedule: Schedule, n: nat, m: nat)
    requires Finished(After(s, schedule, n)) && n <= m && forall k :: Goes(schedule(k))
    ensures After(s, schedule, m) == After(s, schedule, n)
  {
    if m > n { FinishedStays(s, schedule, n, m - 1); }
  }

  function First(schedule: Schedule, n: nat): seq<Event>
  {
    if n == 0 then [] else First(schedule, n - 1) + [schedule(n - 1)]
  }

  lemma {:induction false} AfterIsRun(s: State, schedule: Schedule, n: nat)
    ensures After(s, schedule, n) == Run(s, First(schedule, n))
  {
    if n > 0 {
      AfterIsRun(s, schedule, n - 1);
      RunAppend(s, First(schedule, n - 1), [schedule(n - 1)]);
      RunOne(After(s, schedule, n - 1), schedule(n - 1));
    }
  }

  /** From every reachable state, every fair schedule of what is in flight finishes it all,
      after which nothing changes any more; then nothing is left of the actors that were
      stopping, and the memberships agree. */
  lemma EveryFairScheduleFinishes(threads: set<ThreadId>, events: seq<Event>, schedule: Schedule) returns (n: nat)
    requires Fair(Run(Init(threads), events), schedule)
    ensures var s := Run(Init(threads), events);
            && Finished(After(s, schedule, n)) && Tidy(After(s, schedule, n))
            && forall m :: m >= n ==> After(s, schedule, m) == After(s, schedule, n)
  {
    hide Inv, Held, Run, Finished, Tidy;
    var s := Run(Init(threads), events);
    InitInv(threads);
    RunInv(Init(threads), events);
    InitHeld(threads);
    RunHeld(Init(threads), events);
    n := FinishesFrom(s, schedule, 0);
    forall m | m >= n ensures After(s, schedule, m) == After(s, schedule, n) { FinishedStays(s, schedule, n, m); }
    var more := First(schedule, n);
    AfterIsRun(s, schedule, n);
    RunAppend(Init(threads), events, more);
    FinishedIsTidy(threads, events + more);
  }

  // ------------------------------------------------------------------ taking turns is fair

  /** The next step of a process, with some drained relationship picked if there is one. */
  ghost function Try(now: State, p: Proc): Event
  {
    match p
    case T(t) => Thread(t, Proceed)
    case S(a) =>
      if a in now.stops && Drained(now.stops[a]) != {} then (var slot :| slot in Drained(now.stops[a]); Shutdown(a, slot))
      else Shutdown(a, Member(Key("", "")))
  }

  /** Whose turn it is, of so many. */
  function Whose(count: nat, n: nat): (i: nat)
    requires count > 0
    ensures i < count
  {
    if n == 0 then 0 else var i := Whose(count, n - 1); if i + 1 == count then 0 else i + 1
  }

  /** Everyone's turn comes again. */
  lemma {:induction false} TurnComes(count: nat, j: nat, n: nat) returns (m: nat)
    requires j < count
    ensures m >= n && Whose(count, m) == j
    decreases if Whose(count, n) <= j then j - Whose(count, n) else j + count - Whose(count, n)
  {
    if Whose(count, n) == j { m := n; } else { m := TurnComes(count, j, n + 1); }
  }

  /** The state after `n` turns, the processes taking turns. */
  ghost function InTurn(s: State, ps: seq<Proc>, n: nat): State
    requires ps != []
    decreases n, 0
  {
    if n == 0 then s else Next(InTurn(s, ps, n - 1), Chosen(s, ps, n - 1))
  }

  ghost function Chosen(s: State, ps: seq<Proc>, n: nat): Event
    requires ps != []
    decreases n, 1
  {
    Try(InTurn(s, ps, n), ps[Whose(|ps|, n)])
  }

  ghost function TakingTurns(s: State, ps: seq<Proc>): Schedule
    requires ps != []
  {
    (n: nat) => Chosen(s, ps, n)
  }

  lemma {:induction false} TurnsAfter(s: State, ps: seq<Proc>, n: nat)
    requires ps != []
    ensures After(s, TakingTurns(s, ps), n) == InTurn(s, ps, n)
  {
    hide Next, Chosen;
    if n > 0 { TurnsAfter(s, ps, n - 1); }
  }

  lemma TryTries(s: State, ps: seq<Proc>, p: Proc, n: nat)
    requires ps != [] && ps[Whose(|ps|, n)] == p
    ensures Tries(s, TakingTurns(s, ps), p, n) && Goes(TakingTurns(s, ps)(n))
  {
    TurnsAfter(s, ps, n);
    hide InTurn, After, Whose;
  }

  lemma TurnsAreFair(s: State, ps: seq<Proc>)
    requires ps != [] && forall p :: Present(s, p) ==> p in ps
    ensures Fair(s, TakingTurns(s, ps))
  {
    hide Tries, TakingTurns, Present, Goes;
    var schedule := TakingTurns(s, ps);
    forall n: nat ensures Goes(schedule(n)) { TryTries(s, ps, ps[Whose(|ps|, n)], n); }
    forall p, n: nat | Present(s, p) ensures TriesAgain(s, schedule, p, n) {
      var j :| 0 <= j < |ps| && ps[j] == p;
      var m := TurnComes(|ps|, j, n);
      TryTries(s, ps, p, m);
    }
  }

  ghost function Listed(procs: set<Proc>): (r: seq<Proc>)
    ensures forall p :: p in r <==> p in procs
  {
    if procs == {} then [] else var p :| p in procs; [p] + Listed(procs - {p})
  }

  /** From every state there is a fair schedule: the processes take turns. */
  lemma FairExists(s: State) returns (schedule: Schedule)
    ensures Fair(s, schedule)
  {
    var threads, stops := set t | t in s.threads :: T(t), set a | a in s.stops :: S(a);
    var ps := [T(0)] + Listed(threads + stops);
    forall p | Present(s, p) ensures p in ps { assert p in threads + stops; }
    hide Fair;
    TurnsAreFair(s, ps);
    schedule := TakingTurns(s, ps);
  }
}
