/**
 When the table can come to rest. A philosopher that waits is always either going to be served
 or part of one cycle around the whole table: no request is forgotten, and no timer is lost.
 That cycle is reachable, so the table can stop for good with everyone hungry.
 */
module PhilosophersRest {
  import opened Options
  import opened Philosophers
  import opened PhilosophersRing
  import PhilosophersSafety

  /** Nothing is in a mailbox, scheduled, or halfway done. */
  predicate AtRest(w: World)
    requires Shape(w)
  {
    forall p :: 0 <= p < |w.forks| ==>
      w.forkBox[p] == [] && w.philosopherBox[p] == [] && w.timers[p] == [] && w.halfway[p] == None
  }

  /** A message the philosopher will get to handle. */
  predicate Due(box: seq<PhilosopherMessage>, timers: seq<PhilosopherMessage>, halfway: Option<Rest>, m: PhilosopherMessage)
  {
    m in box || m in timers || (halfway.Some? && m in halfway.value.scheduled)
  }

  /** A hungry philosopher lacks a fork and has asked, or is about to ask, for what it lacks. */
  predicate Waiting(s: PhilosopherState, halfway: Option<Rest>)
  {
    && !(s.left.has && s.right.has)
    && (s.left.has || s.left.requested)
    && (s.right.has || s.right.requested || (halfway.Some? && halfway.value.message.RequestFork?))
  }

  predicate ModeOk(s: PhilosopherState, box: seq<PhilosopherMessage>, timers: seq<PhilosopherMessage>, halfway: Option<Rest>)
  {
    match s.mode
    case Thinking => Due(box, timers, halfway, BecomeHungry(s.changes))
    case Eating => Due(box, timers, halfway, StopEating(s.changes))
    case Hungry => Waiting(s, halfway)
  }

  /** The philosopher is told to give the fork up, after it gets the fork if it still has to. */
  ghost predicate Told(box: seq<PhilosopherMessage>, f: Id)
  {
    exists i :: 0 <= i < |box| && box[i] == GiveUpFork(f) && ReceiveFork(f) !in box[i..]
  }

  /** A request that waits for a fork that has been used is on its way to be served. */
  ghost predicate Promised(fork: ForkState, forkBox: seq<ForkMessage>, boxes: seq<seq<PhilosopherMessage>>, f: Id)
  {
    !fork.clean && fork.backlog != [] && fork.ownedBy.Some? && fork.ownedBy.value < |boxes| ==>
      PutForkDown(fork.ownedBy.value) in forkBox || Told(boxes[fork.ownedBy.value], f)
  }

  ghost predicate Live(w: World)
    requires Shape(w)
  {
    && (forall p :: 0 <= p < |w.forks| ==> ModeOk(w.philosophers[p], w.philosopherBox[p], w.timers[p], w.halfway[p]))
    && (forall f :: 0 <= f < |w.forks| ==> Promised(w.forks[f], w.forkBox[f], w.philosopherBox, f))
  }

  // ------------------------------------------------------------------ what keeps a promise

  lemma ToldPush(box: seq<PhilosopherMessage>, m: PhilosopherMessage, f: Id)
    requires m == GiveUpFork(f) || (Told(box, f) && m != ReceiveFork(f))
    ensures Told(box + [m], f)
  {
    var t := box + [m];
    if m == GiveUpFork(f) {
      assert t[|box|] == m && t[|box|..] == [m];
    } else {
      var i :| 0 <= i < |box| && box[i] == GiveUpFork(f) && ReceiveFork(f) !in box[i..];
      assert t[i] == GiveUpFork(f) && t[i..] == box[i..] + [m];
    }
  }

  lemma ToldTail(box: seq<PhilosopherMessage>, f: Id)
    requires Told(box, f)
    ensures box != []
    ensures Told(box[1..], f) || (box[0] == GiveUpFork(f) && ReceiveFork(f) !in box)
  {
    var i :| 0 <= i < |box| && box[i] == GiveUpFork(f) && ReceiveFork(f) !in box[i..];
    if i > 0 {
      assert box[1..][i - 1] == GiveUpFork(f) && box[1..][i - 1..] == box[i..];
    } else {
      assert box[0..] == box;
    }
  }

  lemma DueMonotone(s: PhilosopherState, box: seq<PhilosopherMessage>, m: PhilosopherMessage,
                    timers: seq<PhilosopherMessage>, halfway: Option<Rest>)
    requires ModeOk(s, box, timers, halfway)
    ensures ModeOk(s, box + [m], timers, halfway)
  {
  }

  /** A fork left used and waited for has just told its owner to give it up. */
  lemma TurnTells(me: Id, fork: ForkState, box: seq<ForkMessage>, a: Side, b: Side)
    requires ForkInv(fork, box, a, b) && box != []
    ensures var r := HandleFork(me, fork, box[0]);
            !r.state.clean && r.state.backlog != [] && r.state.ownedBy.Some? ==>
              r.casts == [Cast(r.state.ownedBy.value, GiveUpFork(me))]
  {
    if box[0].RequestFork? {
      if fork.ownedBy.None? {
        assert HandleBacklog(me, fork.(ownedBy := Some(box[0].who))).state.backlog == [];
      }
    } else {
      var o, x := fork.ownedBy.value, if fork.ownedBy.value == a.who then b.who else a.who;
      HandleCases(me, fork, o, x);
    }
  }

  // ------------------------------------------------------------------ every step keeps the promises

  /** A fork's turn puts at most one message about itself into one mailbox. */
  lemma ForkStepCasts(w: World, f: Id)
    requires Inv(w) && f < |w.forks| && w.forkBox[f] != []
    ensures var r, w' := HandleFork(f, w.forks[f], w.forkBox[f][0]), ForkStep(w, f);
            && w' == w.(forks := w.forks[f := r.state], forkBox := w.forkBox[f := w.forkBox[f][1..]],
                        philosopherBox := w'.philosopherBox, error := w'.error)
            && (r.casts == [] ==> w'.philosopherBox == w.philosopherBox)
            && (r.casts != [] ==>
                  var c := r.casts[0];
                  && r.casts == [c] && c.to < |w.forks| && c.message in {GiveUpFork(f), ReceiveFork(f)}
                  && w'.philosopherBox == w.philosopherBox[c.to := w.philosopherBox[c.to] + [c.message]])
            && (!r.state.clean && r.state.backlog != [] && r.state.ownedBy.Some? ==>
                  r.casts == [Cast(r.state.ownedBy.value, GiveUpFork(f))])
  {
    hide HandleFork, ForkInv, ForkOk, PhilosopherOk, SideOf, Deliver;
    var r := HandleFork(f, w.forks[f], w.forkBox[f][0]);
    ForkStepTells(w, f);
    if r.casts != [] { assert r.casts[0] in r.casts; }
    DeliverOne(w.philosopherBox, r.casts);
  }

  lemma ForkStepTells(w: World, f: Id)
    requires Inv(w) && f < |w.forks| && w.forkBox[f] != []
    ensures var r := HandleFork(f, w.forks[f], w.forkBox[f][0]);
            && |r.casts| <= 1
            && (forall c :: c in r.casts ==> c.to < |w.forks| && c.message in {GiveUpFork(f), ReceiveFork(f)})
            && (!r.state.clean && r.state.backlog != [] && r.state.ownedBy.Some? ==>
                  r.casts == [Cast(r.state.ownedBy.value, GiveUpFork(f))])
  {
    hide HandleFork, ForkInv, PhilosopherOk;
    assert ForkOk(w, f);
    TurnTells(f, w.forks[f], w.forkBox[f], SideOf(w, f, f), SideOf(w, Neighbour(|w.forks|, f), f));
    ForkStepTurn(w, f);
  }

  lemma ForkStepMode(w: World, f: Id, p: Id)
    requires Inv(w) && Live(w) && f < |w.forks| && w.forkBox[f] != [] && p < |w.forks|
    ensures var w' := ForkStep(w, f);
            ModeOk(w'.philosophers[p], w'.philosopherBox[p], w'.timers[p], w'.halfway[p])
  {
    hide ForkStep, HandleFork, ForkOk, PhilosopherOk, Promised, ModeOk;
    ForkStepCasts(w, f);
    var r := HandleFork(f, w.forks[f], w.forkBox[f][0]);
    if r.casts != [] && p == r.casts[0].to {
      DueMonotone(w.philosophers[p], w.philosopherBox[p], r.casts[0].message, w.timers[p], w.halfway[p]);
    }
  }

  lemma ForkStepPromised(w: World, f: Id, g: Id)
    requires Inv(w) && Live(w) && f < |w.forks| && w.forkBox[f] != [] && g < |w.forks|
    ensures var w' := ForkStep(w, f);
            Promised(w'.forks[g], w'.forkBox[g], w'.philosopherBox, g)
  {
    hide ForkStep, HandleFork, ForkOk, PhilosopherOk, ModeOk, Told;
    ForkStepCasts(w, f);
    var r := HandleFork(f, w.forks[f], w.forkBox[f][0]);
    assert Promised(w.forks[g], w.forkBox[g], w.philosopherBox, g);
    if r.casts != [] {
      var c := r.casts[0];
      if c.message == GiveUpFork(g) || (g != f && Told(w.philosopherBox[c.to], g)) {
        ToldPush(w.philosopherBox[c.to], c.message, g);
      }
    }
  }

  lemma ForkStepLive(w: World, f: Id)
    requires Inv(w) && Live(w) && f < |w.forks| && w.forkBox[f] != []
    ensures Live(ForkStep(w, f))
  {
    hide ForkStep, ForkOk, PhilosopherOk, ModeOk, Promised;
    var w' := ForkStep(w, f);
    ForkStepCasts(w, f);
    forall p | 0 <= p < |w.forks| ensures ModeOk(w'.philosophers[p], w'.philosopherBox[p], w'.timers[p], w'.halfway[p]) {
      ForkStepMode(w, f, p);
    }
    forall g | 0 <= g < |w.forks| ensures Promised(w'.forks[g], w'.forkBox[g], w'.philosopherBox, g) {
      ForkStepPromised(w, f, g);
    }
  }

  /** A turn leaves a philosopher with what its mode waits for, scheduled or still pending. */
  lemma HandlerMode(n: nat, p: Id, state: PhilosopherState, m: PhilosopherMessage)
    requires n >= 2 && Expected(n, p, state, m) && (state.mode == Hungry ==> Waiting(state, None))
    ensures var r := HandlePhilosopher(p, Left(n, p), Right(n, p), state, m);
            && (r.state.mode == Thinking ==>
                  || BecomeHungry(r.state.changes) in r.scheduled
                  || (state.mode == Thinking && r.state.changes == state.changes && m != BecomeHungry(state.changes)))
            && (r.state.mode == Eating ==>
                  || StopEating(r.state.changes) in r.scheduled
                  || (state.mode == Eating && r.state.changes == state.changes && m != StopEating(state.changes)))
            && (r.state.mode == Hungry ==> Waiting(r.state, None))
            && (r.toRight != [] && r.toRight[0].RequestFork? ==> !state.right.has && !r.state.right.has && r.state.right.requested)
  {
  }

  lemma StartTurnMode(w: World, p: Id)
    requires Inv(w) && Live(w) && p < |w.forks| && w.philosopherBox[p] != [] && w.halfway[p].None?
    ensures var w' := StartTurn(w, p);
            ModeOk(w'.philosophers[p], w'.philosopherBox[p], w'.timers[p], w'.halfway[p])
  {
    hide HandlePhilosopher, ForkOk, Promised;
    var n := |w.forks|;
    var state, box := w.philosophers[p], w.philosopherBox[p];
    assert PhilosopherOk(w, p) && box[0] in box;
    HandlerMode(n, p, state, box[0]);
    var r := HandlePhilosopher(p, Left(n, p), Right(n, p), state, box[0]);
    assert box == [box[0]] + box[1..];
    var w' := StartTurn(w, p);
    assert w'.philosophers[p] == r.state.(right := RightHalfway(state, r));
  }

  /** The owner that neither sent the fork back nor waits for it to arrive holds it. */
  lemma OwnerHolds(w: World, p: Id, f: Id)
    requires Inv(w) && p < |w.forks| && f < |w.forks| && w.forks[f].ownedBy == Some(p)
    requires PutForkDown(p) !in w.forkBox[f] && ReceiveFork(f) !in w.philosopherBox[p]
    ensures f == Left(|w.forks|, p) || f == Right(|w.forks|, p)
    ensures PhilosophersSafety.Holds(w, p, f)
  {
    hide PhilosopherOk;
    assert ForkOk(w, f);
    CountIn(w.forkBox[f], PutForkDown(p));
    assert Count(w.philosopherBox[p], ReceiveFork(f)) == 0 by {
      assert ReceiveFork(f) in multiset(w.philosopherBox[p]) <==> ReceiveFork(f) in w.philosopherBox[p];
    }
  }

  /** A philosopher told to give a fork up while it holds it puts it down. */
  lemma HolderGivesUp(w: World, p: Id, f: Id)
    requires Shape(w) && p < |w.forks| && (f == Left(|w.forks|, p) || f == Right(|w.forks|, p))
    requires PhilosophersSafety.Holds(w, p, f) && w.philosopherBox[p] != [] && w.philosopherBox[p][0] == GiveUpFork(f)
    ensures StartTurn(w, p).forkBox[f] == w.forkBox[f] + [PutForkDown(p)]
  {
  }

  /** A mailbox only grows in someone else's turn. */
  lemma StartTurnSends(w: World, p: Id, f: Id, m: ForkMessage)
    requires Shape(w) && p < |w.forks| && w.philosopherBox[p] != [] && f < |w.forks|
    ensures StartTurn(w, p).forks == w.forks && |StartTurn(w, p).forkBox| == |w.forks|
    ensures StartTurn(w, p).philosopherBox == w.philosopherBox[p := w.philosopherBox[p][1..]]
    ensures m in w.forkBox[f] ==> m in StartTurn(w, p).forkBox[f]
  {
    hide HandlePhilosopher;
  }

  lemma StartTurnPromise(w: World, p: Id, f: Id)
    requires Inv(w) && Live(w) && p < |w.forks| && w.philosopherBox[p] != [] && w.halfway[p].None? && f < |w.forks|
    ensures var w' := StartTurn(w, p);
            && Shape(w')
            && |w'.forks| == |w.forks|
            && Promised(w'.forks[f], w'.forkBox[f], w'.philosopherBox, f)
  {
    hide StartTurn, ForkOk, PhilosopherOk, ModeOk, Told;
    var box, fork := w.philosopherBox[p], w.forks[f];
    StartTurnShape(w, p);
    assert Promised(fork, w.forkBox[f], w.philosopherBox, f);
    if fork.ownedBy.Some? {
      var o := fork.ownedBy.value;
      StartTurnSends(w, p, f, PutForkDown(o));
      if o == p && PutForkDown(p) !in w.forkBox[f] && Told(box, f) {
        ToldTail(box, f);
        if !Told(box[1..], f) {
          OwnerHolds(w, p, f);
          HolderGivesUp(w, p, f);
        }
      }
    } else {
      StartTurnSends(w, p, f, PutForkDown(0));
    }
  }

  lemma StartTurnLive(w: World, p: Id)
    requires Inv(w) && Live(w) && p < |w.forks| && w.philosopherBox[p] != [] && w.halfway[p].None?
    ensures Live(StartTurn(w, p))
  {
    assert Shape(w);
    hide Inv, Promised, HandlePhilosopher, ModeOk;
    StartTurnMode(w, p);
    var w' := StartTurn(w, p);
    forall f | 0 <= f < |w.forks| ensures Promised(w'.forks[f], w'.forkBox[f], w'.philosopherBox, f) {
      StartTurnPromise(w, p, f);
    }
    assert Live(w);
  }

  lemma EndTurnLive(w: World, p: Id)
    requires Inv(w) && Live(w) && p < |w.forks| && w.halfway[p].Some?
    ensures Live(EndTurn(w, p))
  {
    hide ForkOk, Told;
    assert PhilosopherOk(w, p);
    var w' := EndTurn(w, p);
    assert ModeOk(w.philosophers[p], w.philosopherBox[p], w.timers[p], w.halfway[p]);
    assert ModeOk(w'.philosophers[p], w'.philosopherBox[p], w'.timers[p], w'.halfway[p]);
    forall f | 0 <= f < |w.forks| ensures Promised(w'.forks[f], w'.forkBox[f], w'.philosopherBox, f) {
      assert Promised(w.forks[f], w.forkBox[f], w.philosopherBox, f);
    }
  }

  /** A message from outside, or from a timer, joins the mailbox. */
  lemma DeliveryLive(w: World, w': World, p: Id, m: PhilosopherMessage, timers: seq<PhilosopherMessage>)
    requires Shape(w) && Live(w) && p < |w.forks| && !m.ReceiveFork?
    requires w' == w.(timers := w.timers[p := timers], philosopherBox := w.philosopherBox[p := w.philosopherBox[p] + [m]])
    requires forall x :: x in w.timers[p] ==> x in timers || x == m
    ensures Live(w')
  {
    forall f | 0 <= f < |w.forks| ensures Promised(w'.forks[f], w'.forkBox[f], w'.philosopherBox, f) {
      hide Told;
      assert Promised(w.forks[f], w.forkBox[f], w.philosopherBox, f);
      if Told(w.philosopherBox[p], f) { ToldPush(w.philosopherBox[p], m, f); }
    }
  }

  lemma NextLive(w: World, e: Event)
    requires Inv(w) && Live(w)
    ensures Live(Next(w, e))
  {
    hide Live, ForkOk, ForkStep, StartTurn, EndTurn;
    match e
    case ForkTurn(f) => if f < |w.forks| && w.forkBox[f] != [] { ForkStepLive(w, f); }
    case PhilosopherTurn(p) => if p < |w.forks| && w.philosopherBox[p] != [] && w.halfway[p].None? { StartTurnLive(w, p); }
    case FinishTurn(p) => if p < |w.forks| && w.halfway[p].Some? { EndTurnLive(w, p); }
    case TimerFires(p, i) =>
      if p < |w.forks| && i < |w.timers[p]| {
        assert PhilosopherOk(w, p) && w.timers[p][i] in w.timers[p];
        var t := w.timers[p];
        assert t == t[..i] + [t[i]] + t[i + 1..];
        DeliveryLive(w, Next(w, e), p, t[i], t[..i] + t[i + 1..]);
      }
    case AskMetrics(p) =>
      if p < |w.forks| {
        assert w.timers[p := w.timers[p]] == w.timers;
        DeliveryLive(w, Next(w, e), p, SendMetrics, w.timers[p]);
      }
  }

  lemma {:induction false} RunLive(w: World, events: seq<Event>)
    requires Inv(w) && Live(w)
    ensures Inv(Run(w, events)) && Live(Run(w, events))
    decreases |events|
  {
    assert Shape(w);
    hide Inv, Live;
    if events != [] {
      NextInv(w, events[0]);
      NextLive(w, events[0]);
      RunLive(Next(w, events[0]), events[1..]);
    }
  }

  // ------------------------------------------------------------------ at rest

  /** One way of waiting for the other around the whole table: everyone is hungry and holds
      exactly the fork on the same side, clean, with the neighbour's request for it waiting. */
  predicate ClosedCycle(w: World)
    requires Shape(w)
  {
    && (forall p :: 0 <= p < |w.forks| ==> w.philosophers[p].mode == Hungry && w.forks[p].clean)
    && ((forall p :: 0 <= p < |w.forks| ==>
           && w.philosophers[p].left.has && !w.philosophers[p].right.has
           && w.forks[p].backlog == [RequestFork(Neighbour(|w.forks|, p))])
        || (forall p :: 0 <= p < |w.forks| ==>
           && !w.philosophers[p].left.has && w.philosophers[p].right.has
           && w.forks[p].backlog == [RequestFork(p)]))
  }

  /** At rest, a fork that one user lacks is in the hand of the other, clean and waited for. */
  lemma ForkAtRest(w: World, f: Id)
    requires Inv(w) && Live(w) && AtRest(w) && f < |w.forks|
    ensures var b := Neighbour(|w.forks|, f);
            && w.philosophers[f].mode == Hungry
            && (w.philosophers[f].left.has <==> !w.philosophers[b].right.has)
            && w.forks[f].clean
            && w.forks[f].backlog == [RequestFork(if w.philosophers[f].left.has then b else f)]
            && !(w.philosophers[f].left.has && w.philosophers[f].right.has)
            && (w.philosophers[b].right.has ==> !w.philosophers[b].left.has)
  {
    var b := Neighbour(|w.forks|, f);
    assert ForkOk(w, f);
    assert ModeOk(w.philosophers[f], [], [], None) && ModeOk(w.philosophers[b], [], [], None);
    assert Promised(w.forks[f], [], w.philosopherBox, f);
    assert SideOf(w, f, f).flying == 0 && SideOf(w, b, f).flying == 0;
    LackedIsWaitedFor(w.forks[f], SideOf(w, f, f), SideOf(w, b, f));
    assert !Told([], f);
  }

  lemma LackedIsWaitedFor(fork: ForkState, a: Side, b: Side)
    requires ForkInv(fork, [], a, b) && a.flying == 0 && b.flying == 0
    requires (a.has || a.requested) && (b.has || b.requested)
    ensures a.has <==> !b.has
    ensures fork.ownedBy == Some(if a.has then a.who else b.who)
    ensures fork.backlog == [RequestFork(if a.has then b.who else a.who)]
  {
    var empty: seq<ForkMessage> := [];
    forall m ensures Count(empty, m) == 0 {}
  }

  /** Who has its left fork has its right neighbour's left fork held too, and so on down to 0. */
  lemma {:induction false} LeftDownward(w: World, k: nat, j: nat)
    requires Inv(w) && Live(w) && AtRest(w) && j <= k < |w.forks| && w.philosophers[k].left.has
    ensures w.philosophers[j].left.has
    decreases k
  {
    if j < k {
      ForkAtRest(w, k - 1);
      ForkAtRest(w, k);
      LeftDownward(w, k - 1, j);
    }
  }

  /** In every reachable state in which nothing can happen any more, the philosophers wait for
      each other in one closed cycle: a run that is not caught in it always goes on. */
  lemma RestIsAClosedCycle(n: nat, events: seq<Event>)
    requires n >= 2 && AtRest(Run(Init(n), events))
    ensures ClosedCycle(Run(Init(n), events))
  {
    InitInv(n);
    RunLive(Init(n), events);
    CycleAtRest(Run(Init(n), events));
  }

  lemma CycleAtRest(w: World)
    requires Inv(w) && Live(w) && AtRest(w)
    ensures ClosedCycle(w)
  {
    var n := |w.forks|;
    forall k, j | 0 <= k < n && 0 <= j < n && w.philosophers[k].left.has ensures w.philosophers[j].left.has {
      LeftDownward(w, k, 0);
      ForkAtRest(w, n - 1);
      ForkAtRest(w, 0);
      LeftDownward(w, n - 1, j);
    }
    hide Inv, Live, AtRest;
    forall p | 0 <= p < n
      ensures w.philosophers[p].mode == Hungry && w.forks[p].clean
      ensures w.philosophers[p].left.has <==> !w.philosophers[p].right.has
      ensures w.forks[p].backlog == [RequestFork(if w.philosophers[p].left.has then Neighbour(n, p) else p)]
    {
      ForkAtRest(w, p);
      ForkAtRest(w, Right(n, p));
    }
  }

  // ------------------------------------------------------------------ the cycle is reachable, and final

  predicate OnlyMetrics(w: World, w0: World)
    requires Shape(w) && Shape(w0)
  {
    && w == w0.(philosopherBox := w.philosopherBox)
    && forall p, m :: 0 <= p < |w.forks| && m in w.philosopherBox[p] ==> m == SendMetrics
  }

  lemma {:induction false} StaysAtRest(w: World, w0: World, events: seq<Event>)
    requires Shape(w) && Shape(w0) && |w.forks| == |w0.forks| && AtRest(w0) && OnlyMetrics(w, w0)
    ensures OnlyMetrics(Run(w, events), w0)
    decreases |events|
  {
    if events != [] {
      MetricsChangeNothing(w, w0, events[0]);
      StaysAtRest(Next(w, events[0]), w0, events[1..]);
    }
  }

  lemma MetricsChangeNothing(w: World, w0: World, e: Event)
    requires Shape(w) && Shape(w0) && |w.forks| == |w0.forks| && AtRest(w0) && OnlyMetrics(w, w0)
    ensures OnlyMetrics(Next(w, e), w0)
  {
    match e
    case PhilosopherTurn(p) =>
      if p < |w.forks| && w.philosopherBox[p] != [] && w.halfway[p].None? {
        assert w.philosopherBox[p][0] in w.philosopherBox[p];
        assert w.forkBox[Left(|w.forks|, p)] + [] == w.forkBox[Left(|w.forks|, p)];
        assert w.forkBox[Right(|w.forks|, p)] + [] == w.forkBox[Right(|w.forks|, p)];
        assert w.timers[p] + [] == w.timers[p];
        assert forall m :: m in w.philosopherBox[p][1..] ==> m in w.philosopherBox[p];
        assert Next(w, e) == w.(philosopherBox := w.philosopherBox[p := w.philosopherBox[p][1..]]);
      }
    case _ =>
  }

  /** Once at rest, no philosopher changes any more, whatever happens. */
  lemma RestIsFinal(n: nat, events: seq<Event>, more: seq<Event>)
    requires n >= 2 && AtRest(Run(Init(n), events))
    ensures Run(Run(Init(n), events), more).philosophers == Run(Init(n), events).philosophers
  {
    StaysAtRest(Run(Init(n), events), Run(Init(n), events), more);
  }
}
