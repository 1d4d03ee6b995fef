/**
 A run, for every size of the table, into the closed cycle. Each philosopher takes its left fork
 while its neighbour asks for it, so each gives its left fork up; each then holds its right
 fork, clean, and asks for its left fork again.
 */
module PhilosophersStuck {
  import opened Options
  import opened Philosophers
  import opened PhilosophersRing
  import opened PhilosophersRest

  // In the run everyone does the same eleven things in turn. Place `i` is described by how many
  // of them place `i`, its neighbour `next` and the place before it have done.

  function WhatToDo(done: nat, i: Id): Event
  {
    if done == 1 then FinishTurn(i)
    else if done in {2, 3, 6, 10} then ForkTurn(i)
    else if done == 8 then TimerFires(i, 0)
    else PhilosopherTurn(i)
  }

  function ForkAt(done: nat, i: Id, next: Id): ForkState
  {
    if done < 3 then ForkState(false, None, [])
    else if done == 3 then ForkState(false, Some(i), [])
    else if done < 7 then ForkState(false, Some(i), [RequestFork(next)])
    else if done < 11 then ForkState(true, Some(next), [])
    else ForkState(true, Some(next), [RequestFork(i)])
  }

  function ForkBoxAt(done: nat, nextDone: nat, i: Id, next: Id): seq<ForkMessage>
  {
    if done == 1 || done == 2 then
      if nextDone >= 2 then [RequestFork(i), RequestFork(next)] else [RequestFork(i)]
    else if done == 3 then [RequestFork(next)]
    else if done == 6 then [PutForkDown(i)]
    else if done == 10 then [RequestFork(i)]
    else []
  }

  function PhilosopherAt(done: nat): PhilosopherState
  {
    if done == 0 then PhilosopherState(Thinking, Hand(false, false), Hand(false, false), 0)
    else if done == 1 then PhilosopherState(Hungry, Hand(false, true), Hand(false, false), 1)
    else if done < 5 then PhilosopherState(Hungry, Hand(false, true), Hand(false, true), 1)
    else if done == 5 then PhilosopherState(Hungry, Hand(true, false), Hand(false, true), 1)
    else if done < 8 then PhilosopherState(Thinking, Hand(false, false), Hand(false, true), 2)
    else if done < 10 then PhilosopherState(Thinking, Hand(false, false), Hand(true, false), 2)
    else PhilosopherState(Hungry, Hand(false, true), Hand(true, false), 3)
  }

  function PhilosopherBoxAt(done: nat, beforeDone: nat, i: Id, before: Id): seq<PhilosopherMessage>
  {
    if done == 0 then [BecomeHungry(0)]
    else if done == 3 then [ReceiveFork(i)]
    else if done == 4 then [ReceiveFork(i), GiveUpFork(i)]
    else if done == 5 then [GiveUpFork(i)]
    else if done == 6 || done == 7 then if beforeDone >= 7 then [ReceiveFork(before)] else []
    else if done == 9 then [BecomeHungry(2)]
    else []
  }

  function TimersAt(done: nat): seq<PhilosopherMessage> { if 6 <= done < 9 then [BecomeHungry(2)] else [] }

  function HalfwayAt(done: nat, i: Id): Option<Rest>
  {
    if done == 1 then Some(Rest(RequestFork(i), Hand(false, true), [])) else None
  }

  /** How many things place `i` has done, when the places below `k` are one ahead. */
  function Done(stage: nat, k: nat, i: Id): nat { if i < k then stage + 1 else stage }

  predicate PlaceAt(w: World, stage: nat, k: nat, i: Id)
    requires Shape(w) && i < |w.forks|
  {
    var done, next, before := Done(stage, k, i), Neighbour(|w.forks|, i), Right(|w.forks|, i);
    && w.forks[i] == ForkAt(done, i, next)
    && w.forkBox[i] == ForkBoxAt(done, Done(stage, k, next), i, next)
    && w.philosophers[i] == PhilosopherAt(done)
    && w.philosopherBox[i] == PhilosopherBoxAt(done, Done(stage, k, before), i, before)
    && w.timers[i] == TimersAt(done)
    && w.halfway[i] == HalfwayAt(done, i)
  }

  predicate TableAt(w: World, stage: nat, k: nat)
  {
    && Shape(w)
    && forall i :: 0 <= i < |w.forks| ==> PlaceAt(w, stage, k, i)
  }

  /** What fork `k` casts at its stages. */
  function Casts(stage: nat, k: Id, next: Id): seq<Cast>
  {
    if stage == 2 then [Cast(k, ReceiveFork(k))]
    else if stage == 3 then [Cast(k, GiveUpFork(k))]
    else if stage == 6 then [Cast(next, ReceiveFork(k))]
    else []
  }

  lemma ForkHandles(stage: nat, k: Id, next: Id)
    requires stage in {2, 3, 6, 10} && k != next
    ensures HandleFork(k, ForkAt(stage, k, next), ForkBoxAt(stage, 2, k, next)[0])
         == ForkResult(ForkAt(stage + 1, k, next), Casts(stage, k, next), None, false)
  {
    if stage == 6 { HandleCases(k, ForkAt(stage, k, next), k, next); }
  }

  /** The table after fork `k` has taken its turn. */
  function AfterFork(w: World, stage: nat, k: Id): World
    requires Shape(w) && k < |w.forks| && w.forkBox[k] != []
  {
    var next := Neighbour(|w.forks|, k);
    var box := if stage == 6 then w.philosopherBox[next := w.philosopherBox[next] + [ReceiveFork(k)]]
               else if stage == 10 then w.philosopherBox
               else w.philosopherBox[k := w.philosopherBox[k] + [if stage == 2 then ReceiveFork(k) else GiveUpFork(k)]];
    w.(forks := w.forks[k := ForkAt(stage + 1, k, next)], forkBox := w.forkBox[k := w.forkBox[k][1..]], philosopherBox := box)
  }

  lemma ForkTurnGives(w: World, stage: nat, k: Id)
    requires TableAt(w, stage, k) && k < |w.forks| && stage in {2, 3, 6, 10}
    ensures w.forkBox[k] != [] && Next(w, ForkTurn(k)) == AfterFork(w, stage, k)
  {
    hide HandleFork;
    var next := Neighbour(|w.forks|, k);
    assert PlaceAt(w, stage, k, k);
    ForkHandles(stage, k, next);
    DeliverOne(w.philosopherBox, Casts(stage, k, next));
    hide Deliver, ForkAt;
  }

  lemma ForkTurnPlace(w: World, stage: nat, k: Id, i: Id)
    requires TableAt(w, stage, k) && k < |w.forks| && i < |w.forks| && stage in {2, 3, 6, 10} && w.forkBox[k] != []
    ensures PlaceAt(AfterFork(w, stage, k), stage, k + 1, i)
  {
    assert PlaceAt(w, stage, k, i);
    hide TableAt;
  }

  lemma ForkTurnStep(w: World, stage: nat, k: nat)
    requires TableAt(w, stage, k) && k < |w.forks| && stage in {2, 3, 6, 10}
    ensures TableAt(Next(w, ForkTurn(k)), stage, k + 1)
  {
    hide PlaceAt;
    ForkTurnGives(w, stage, k);
    var k' := k + 1;
    forall i | 0 <= i < |w.forks| ensures PlaceAt(AfterFork(w, stage, k), stage, k', i) {
      ForkTurnPlace(w, stage, k, i);
    }
  }

  /** What philosopher `k` does at its stages. */
  function Does(stage: nat, k: Id): PhilosopherResult
  {
    if stage == 0 then PhilosopherResult(PhilosopherAt(2), [RequestFork(k)], [RequestFork(k)], [], false)
    else PhilosopherResult(PhilosopherAt(stage + 1),
      if stage == 5 then [PutForkDown(k)] else if stage == 9 then [RequestFork(k)] else [], [],
      if stage == 5 then [BecomeHungry(2)] else [], false)
  }

  lemma PhilosopherHandles(stage: nat, k: Id, before: Id)
    requires stage in {0, 4, 5, 7, 9} && k != before
    ensures HandlePhilosopher(k, k, before, PhilosopherAt(stage), PhilosopherBoxAt(stage, 7, k, before)[0]) == Does(stage, k)
  {
  }

  /** The table after philosopher `k` has taken its turn. */
  function AfterPhilosopher(w: World, stage: nat, k: Id): World
    requires Shape(w) && k < |w.forks| && w.philosopherBox[k] != []
  {
    w.(philosophers := w.philosophers[k := PhilosopherAt(stage + 1)],
       philosopherBox := w.philosopherBox[k := w.philosopherBox[k][1..]],
       forkBox := if stage in {0, 9} then w.forkBox[k := w.forkBox[k] + [RequestFork(k)]]
                  else if stage == 5 then w.forkBox[k := w.forkBox[k] + [PutForkDown(k)]] else w.forkBox,
       timers := if stage == 5 then w.timers[k := w.timers[k] + [BecomeHungry(2)]] else w.timers,
       halfway := if stage == 0 then w.halfway[k := HalfwayAt(1, k)] else w.halfway)
  }

  lemma PhilosopherTurnGives(w: World, stage: nat, k: Id)
    requires TableAt(w, stage, k) && k < |w.forks| && stage in {0, 4, 5, 7, 9}
    ensures w.philosopherBox[k] != [] && Next(w, PhilosopherTurn(k)) == AfterPhilosopher(w, stage, k)
  {
    hide HandlePhilosopher, StartTurn;
    assert PlaceAt(w, stage, k, k);
    PhilosopherHandles(stage, k, Right(|w.forks|, k));
    TurnDoes(w, stage, k);
  }

  lemma TurnDoes(w: World, stage: nat, k: Id)
    requires Shape(w) && k < |w.forks| && w.philosopherBox[k] != [] && stage in {0, 4, 5, 7, 9}
    requires w.philosophers[k].right == PhilosopherAt(stage).right
    requires HandlePhilosopher(k, k, Right(|w.forks|, k), w.philosophers[k], w.philosopherBox[k][0]) == Does(stage, k)
    ensures StartTurn(w, k) == AfterPhilosopher(w, stage, k)
  {
    hide HandlePhilosopher;
    assert w.forkBox[Right(|w.forks|, k)] + [] == w.forkBox[Right(|w.forks|, k)];
    assert w.forkBox[k] + [] == w.forkBox[k];
    assert w.timers[k] + [] == w.timers[k];
  }

  lemma PhilosopherTurnPlace(w: World, stage: nat, k: Id, i: Id)
    requires TableAt(w, stage, k) && k < |w.forks| && i < |w.forks| && stage in {0, 4, 5, 7, 9} && w.philosopherBox[k] != []
    ensures PlaceAt(AfterPhilosopher(w, stage, k), stage, k + 1, i)
  {
    assert PlaceAt(w, stage, k, i);
    hide TableAt;
  }

  lemma PhilosopherTurnStep(w: World, stage: nat, k: nat)
    requires TableAt(w, stage, k) && k < |w.forks| && stage in {0, 4, 5, 7, 9}
    ensures TableAt(Next(w, PhilosopherTurn(k)), stage, k + 1)
  {
    hide PlaceAt;
    PhilosopherTurnGives(w, stage, k);
    var k' := k + 1;
    forall i | 0 <= i < |w.forks| ensures PlaceAt(AfterPhilosopher(w, stage, k), stage, k', i) {
      PhilosopherTurnPlace(w, stage, k, i);
    }
  }

  lemma OtherStep(w: World, stage: nat, k: nat)
    requires TableAt(w, stage, k) && k < |w.forks| && stage in {1, 8}
    ensures TableAt(Next(w, WhatToDo(stage, k)), stage, k + 1)
  {
    var n, k' := |w.forks|, k + 1;
    var w' := Next(w, WhatToDo(stage, k));
    assert PlaceAt(w, stage, k, k);
    forall i | 0 <= i < n ensures PlaceAt(w', stage, k', i) {
      assert PlaceAt(w, stage, k, i);
    }
  }

  lemma {:induction false} FinishStage(w: World, stage: nat, k: nat) returns (events: seq<Event>)
    requires TableAt(w, stage, k) && k <= |w.forks| && stage < 11
    ensures |Run(w, events).forks| == |w.forks| && TableAt(Run(w, events), stage + 1, 0)
    decreases |w.forks| - k
  {
    if k == |w.forks| {
      events := [];
      var stage' := stage + 1;
      forall i | 0 <= i < |w.forks| ensures PlaceAt(w, stage', 0, i) { assert PlaceAt(w, stage, k, i); }
    } else {
      hide TableAt, Next;
      var e := WhatToDo(stage, k);
      if stage in {2, 3, 6, 10} { ForkTurnStep(w, stage, k); }
      else if stage in {1, 8} { OtherStep(w, stage, k); }
      else { PhilosopherTurnStep(w, stage, k); }
      var rest := FinishStage(Next(w, e), stage, k + 1);
      events := [e] + rest;
      assert Run(w, events) == Run(Next(w, e), rest);
    }
  }

  lemma {:induction false} RunAppend(w: World, first: seq<Event>, second: seq<Event>)
    requires Shape(w)
    ensures Run(w, first + second) == Run(Run(w, first), second)
    decreases |first|
  {
    if first == [] {
      assert first + second == second;
    } else {
      assert (first + second)[1..] == first[1..] + second;
      RunAppend(Next(w, first[0]), first[1..], second);
    }
  }

  lemma {:induction false} FinishAll(w: World, stage: nat) returns (events: seq<Event>)
    requires TableAt(w, stage, 0) && stage <= 11
    ensures |Run(w, events).forks| == |w.forks| && TableAt(Run(w, events), 11, 0)
    decreases 11 - stage
  {
    if stage == 11 {
      events := [];
    } else {
      var first := FinishStage(w, stage, 0);
      var rest := FinishAll(Run(w, first), stage + 1);
      RunAppend(w, first, rest);
      events := first + rest;
    }
  }

  /** The closed cycle is reachable at every table, so a run may end with everyone hungry. */
  lemma EveryTableCanStarve(n: nat) returns (events: seq<Event>)
    requires n >= 2
    ensures var w := Run(Init(n), events);
            AtRest(w) && ClosedCycle(w)
  {
    var w := Init(n);
    forall i | 0 <= i < n ensures PlaceAt(w, 0, 0, i) {}
    events := FinishAll(w, 0);
    var w' := Run(w, events);
    forall p | 0 <= p < n
      ensures w'.forkBox[p] == [] && w'.philosopherBox[p] == [] && w'.timers[p] == [] && w'.halfway[p] == None
    {
      assert PlaceAt(w', 11, 0, p);
    }
    RestIsAClosedCycle(n, events);
  }
}
