/**
 The point of no return of the table: the states from which nobody will ever eat again. Every
 fork is bound to end up, clean, with the user on the same side of it, and clean forks are
 only given up by those who have eaten.
 */
module PhilosophersFate {
  import opened Options
  import opened Philosophers
  import opened PhilosophersRing
  import opened PhilosophersRest

  // ------------------------------------------------------------------ forks are given up only on demand

  /** The owner has put the fork down or is told to: then the fork has been used, and the
      other user's request waits for it. */
  ghost predicate Awaited(fork: ForkState, forkBox: seq<ForkMessage>, boxes: seq<seq<PhilosopherMessage>>, f: Id)
  {
    fork.ownedBy.Some? && fork.ownedBy.value < |boxes|
    && (PutForkDown(fork.ownedBy.value) in forkBox || Told(boxes[fork.ownedBy.value], f)) ==>
      !fork.clean && fork.backlog != []
  }

  ghost predicate OnDemand(w: World)
    requires Shape(w)
  {
    forall f :: 0 <= f < |w.forks| ==> Awaited(w.forks[f], w.forkBox[f], w.philosopherBox, f)
  }

  /** Being told is a matter of the messages about that fork. */
  lemma ToldSame(box: seq<PhilosopherMessage>, m: PhilosopherMessage, f: Id)
    requires m != GiveUpFork(f)
    ensures Told(box + [m], f) ==> m != ReceiveFork(f) && Told(box, f)
  {
    var t := box + [m];
    if Told(t, f) {
      var i :| 0 <= i < |t| && t[i] == GiveUpFork(f) && ReceiveFork(f) !in t[i..];
      assert i < |box| && box[i] == GiveUpFork(f);
      assert t[i..] == box[i..] + [m];
    }
  }

  lemma ToldAhead(box: seq<PhilosopherMessage>, f: Id)
    requires box != []
    ensures Told(box[1..], f) ==> Told(box, f)
    ensures box[0] == GiveUpFork(f) && ReceiveFork(f) !in box ==> Told(box, f)
  {
    if Told(box[1..], f) {
      var i :| 0 <= i < |box[1..]| && box[1..][i] == GiveUpFork(f) && ReceiveFork(f) !in box[1..][i..];
      assert box[i + 1] == GiveUpFork(f) && box[i + 1..] == box[1..][i..];
    }
    if box[0] == GiveUpFork(f) && ReceiveFork(f) !in box { assert box[0..] == box; }
  }

  /** A fork's turn, by the message: what it does to its owner, its cleanness and its backlog. */
  lemma TurnCases(me: Id, fork: ForkState, box: seq<ForkMessage>, a: Side, b: Side)
    requires ForkInv(fork, box, a, b) && box != []
    ensures var r, m := HandleFork(me, fork, box[0]), box[0];
            var o := if m.who == a.who then b.who else a.who;
            && (m.who == a.who || m.who == b.who)
            && (m.RequestFork? && fork.ownedBy.None? ==>
                  r.state == ForkState(fork.clean, Some(m.who), []) && r.casts == [Cast(m.who, ReceiveFork(me))])
            && (m.RequestFork? && fork.ownedBy.Some? ==>
                  && fork.ownedBy == Some(o) && fork.backlog == []
                  && r.state == fork.(backlog := [m]) && r.casts == if fork.clean then [] else [Cast(o, GiveUpFork(me))])
            && (m.UsingFork? ==>
                  && fork.ownedBy == Some(m.who) && r.state == fork.(clean := false)
                  && r.casts == if fork.backlog == [] then [] else [Cast(m.who, GiveUpFork(me))])
            && (m.PutForkDown? ==>
                  && fork.ownedBy == Some(m.who) && UsingFork(m.who) !in box[1..] && PutForkDown(m.who) !in box[1..]
                  && PutForkDown(o) !in box[1..] && UsingFork(o) !in box[1..]
                  && if fork.backlog == [] then r.state == ForkState(true, None, []) && r.casts == []
                     else
                       && fork.backlog == [RequestFork(o)]
                       && r.state == ForkState(true, Some(o), []) && r.casts == [Cast(o, ReceiveFork(me))])
  {
    var m := box[0];
    if m.who == b.who { Symmetric(fork, box, a, b); }
    if m.RequestFork? {
      if fork.ownedBy.Some? {
        assert box[..0] == [];
        CountTail(box, m);
        assert [] + [m] == [m];
      }
    } else {
      HandleCases(me, fork, m.who, if m.who == a.who then b.who else a.who);
      if m.PutForkDown? { OnlyRequestsFollow(box, m.who); }
    }
  }

  lemma CastsTo(w: World, f: Id)
    requires Inv(w) && f < |w.forks| && w.forkBox[f] != []
    ensures forall g, x :: 0 <= x < |w.forks| && g != f && Told(ForkStep(w, f).philosopherBox[x], g) ==> Told(w.philosopherBox[x], g)
  {
    hide ForkStep, HandleFork, Told, ForkOk, PhilosopherOk;
    ForkStepCasts(w, f);
    var r := HandleFork(f, w.forks[f], w.forkBox[f][0]);
    forall g, x | 0 <= x < |w.forks| && g != f && Told(ForkStep(w, f).philosopherBox[x], g) ensures Told(w.philosopherBox[x], g) {
      if r.casts != [] && x == r.casts[0].to { ToldSame(w.philosopherBox[x], r.casts[0].message, g); }
    }
  }

  lemma ForkStepAwaited(w: World, f: Id)
    requires Inv(w) && OnDemand(w) && f < |w.forks| && w.forkBox[f] != []
    ensures var w' := ForkStep(w, f);
            Awaited(w'.forks[f], w'.forkBox[f], w'.philosopherBox, f)
  {
    hide ForkStep, HandleFork, Told, PhilosopherOk, ForkInv;
    assert ForkOk(w, f) && Awaited(w.forks[f], w.forkBox[f], w.philosopherBox, f);
    ForkStepCasts(w, f);
    TurnCases(f, w.forks[f], w.forkBox[f], SideOf(w, f, f), SideOf(w, Neighbour(|w.forks|, f), f));
    var r, box := HandleFork(f, w.forks[f], w.forkBox[f][0]), w.forkBox[f];
    assert box == [box[0]] + box[1..];
    assert forall m :: m in box[1..] ==> m in box;
    if r.casts != [] && r.casts[0].message == ReceiveFork(f) {
      ToldSame(w.philosopherBox[r.casts[0].to], ReceiveFork(f), f);
      if box[0].RequestFork? { NoReturnsYet(w, f); }
    }
  }

  lemma NoReturnsYet(w: World, f: Id)
    requires Inv(w) && f < |w.forks| && w.forks[f].ownedBy.None?
    ensures forall m :: m in w.forkBox[f] ==> m.RequestFork?
  {
    hide PhilosopherOk;
    assert ForkOk(w, f);
  }

  lemma ForkStepOnDemand(w: World, f: Id)
    requires Inv(w) && OnDemand(w) && f < |w.forks| && w.forkBox[f] != []
    ensures OnDemand(ForkStep(w, f))
  {
    hide ForkStep, HandleFork, Told, ForkOk, PhilosopherOk;
    var w' := ForkStep(w, f);
    ForkStepCasts(w, f);
    CastsTo(w, f);
    forall g | 0 <= g < |w.forks| ensures Awaited(w'.forks[g], w'.forkBox[g], w'.philosopherBox, g) {
      if g == f { ForkStepAwaited(w, f); } else { assert Awaited(w.forks[g], w.forkBox[g], w.philosopherBox, g); }
    }
  }

  /** What a philosopher's turn may add to a fork's mailbox. */
  lemma TurnAdds(w: World, p: Id, f: Id)
    requires Inv(w) && p < |w.forks| && w.philosopherBox[p] != [] && w.halfway[p].None? && f < |w.forks|
    ensures var w', m := StartTurn(w, p), w.philosopherBox[p][0];
            && Shape(w') && |w'.forks| == |w.forks| && w'.forks == w.forks
            && w'.philosopherBox == w.philosopherBox[p := w.philosopherBox[p][1..]]
            && |w.forkBox[f]| <= |w'.forkBox[f]| <= |w.forkBox[f]| + 1 && w'.forkBox[f][..|w.forkBox[f]|] == w.forkBox[f]
            && (|w'.forkBox[f]| > |w.forkBox[f]| ==>
                  var x := w'.forkBox[f][|w.forkBox[f]|];
                  && x.who == p && (f == Left(|w.forks|, p) || f == Right(|w.forks|, p))
                  && (x.PutForkDown? ==> m == GiveUpFork(f) && HasFork(|w.forks|, p, w.philosophers[p], f))
                  && (x.UsingFork? ==> w'.philosophers[p].mode == Eating))
  {
    assert PhilosopherOk(w, p);
    var n := |w.forks|;
    HandlerSends(n, p, w.philosophers[p], w.philosopherBox[p][0]);
    hide HandlePhilosopher, ForkOk, PhilosopherOk;
  }

  predicate HasFork(n: nat, p: Id, s: PhilosopherState, f: Id)
    requires n >= 2
  {
    (f == Left(n, p) && s.left.has) || (f == Right(n, p) && s.right.has)
  }

  lemma HandlerSends(n: nat, p: Id, s: PhilosopherState, m: PhilosopherMessage)
    requires n >= 2
    ensures var r := HandlePhilosopher(p, Left(n, p), Right(n, p), s, m);
            && |r.toLeft| <= 1 && |r.toRight| <= 1
            && (r.toLeft != [] ==>
                  var x := r.toLeft[0];
                  && x.who == p && (x.UsingFork? ==> r.state.mode == Eating)
                  && (x.PutForkDown? ==> m == GiveUpFork(Left(n, p)) && s.left.has))
            && (r.toRight != [] ==>
                  var x := r.toRight[0];
                  && x.who == p && (x.UsingFork? ==> r.state.mode == Eating)
                  && (x.PutForkDown? ==> m == GiveUpFork(Right(n, p)) && s.right.has))
            && (r.toLeft != [] && r.toRight != [] ==> !r.toLeft[0].PutForkDown? && !r.toRight[0].PutForkDown?)
  {
  }

  /** Who has a fork has it on no other way. */
  lemma HolderAwaitsNone(w: World, p: Id, f: Id)
    requires Inv(w) && p < |w.forks| && f < |w.forks| && HasFork(|w.forks|, p, w.philosophers[p], f)
    ensures ReceiveFork(f) !in w.philosopherBox[p] && w.forks[f].ownedBy == Some(p) && PutForkDown(p) !in w.forkBox[f]
  {
    hide PhilosopherOk;
    assert ForkOk(w, f);
    CountIn(w.forkBox[f], PutForkDown(p));
    assert ReceiveFork(f) in multiset(w.philosopherBox[p]) <==> ReceiveFork(f) in w.philosopherBox[p];
  }

  lemma StartTurnAwaited(w: World, p: Id, f: Id)
    requires Inv(w) && OnDemand(w) && p < |w.forks| && w.philosopherBox[p] != [] && w.halfway[p].None? && f < |w.forks|
    ensures var w' := StartTurn(w, p);
            && Shape(w') && |w'.forks| == |w.forks|
            && Awaited(w'.forks[f], w'.forkBox[f], w'.philosopherBox, f)
  {
    hide StartTurn, ForkOk, PhilosopherOk, Told;
    TurnAdds(w, p, f);
    ToldAhead(w.philosopherBox[p], f);
    assert Awaited(w.forks[f], w.forkBox[f], w.philosopherBox, f);
    var w', k := StartTurn(w, p), |w.forkBox[f]|;
    assert w'.forkBox[f] == w.forkBox[f] || w'.forkBox[f] == w.forkBox[f] + [w'.forkBox[f][k]];
    if |w'.forkBox[f]| > k && w'.forkBox[f][k].PutForkDown? { HolderAwaitsNone(w, p, f); }
  }

  lemma NextOnDemand(w: World, e: Event)
    requires Inv(w) && OnDemand(w)
    ensures OnDemand(Next(w, e))
  {
    hide ForkOk, ForkStep, StartTurn, Told, Awaited;
    match e
    case ForkTurn(f) => if f < |w.forks| && w.forkBox[f] != [] { ForkStepOnDemand(w, f); }
    case PhilosopherTurn(p) =>
      if p < |w.forks| && w.philosopherBox[p] != [] && w.halfway[p].None? {
        StartTurnAwaited(w, p, 0);
        TurnAdds(w, p, 0);
        forall f | 0 <= f < |w.forks| ensures Awaited(Next(w, e).forks[f], Next(w, e).forkBox[f], Next(w, e).philosopherBox, f) {
          StartTurnAwaited(w, p, f);
        }
      }
    case FinishTurn(p) => if p < |w.forks| && w.halfway[p].Some? { EndTurnOnDemand(w, p); }
    case TimerFires(p, i) =>
      if p < |w.forks| && i < |w.timers[p]| {
        assert PhilosopherOk(w, p) && w.timers[p][i] in w.timers[p];
        DeliveryOnDemand(w, Next(w, e), p, w.timers[p][i]);
      }
    case AskMetrics(p) => if p < |w.forks| { DeliveryOnDemand(w, Next(w, e), p, SendMetrics); }
  }

  lemma EndTurnOnDemand(w: World, p: Id)
    requires Inv(w) && OnDemand(w) && p < |w.forks| && w.halfway[p].Some?
    ensures OnDemand(EndTurn(w, p))
  {
    hide ForkOk, Told;
    assert PhilosopherOk(w, p);
    var w' := EndTurn(w, p);
    forall f | 0 <= f < |w.forks| ensures Awaited(w'.forks[f], w'.forkBox[f], w'.philosopherBox, f) {
      assert Awaited(w.forks[f], w.forkBox[f], w.philosopherBox, f);
    }
  }

  lemma DeliveryOnDemand(w: World, w': World, p: Id, m: PhilosopherMessage)
    requires Shape(w) && OnDemand(w) && p < |w.forks| && !m.ReceiveFork? && !m.GiveUpFork? && |w'.timers| == |w.timers|
    requires w' == w.(timers := w'.timers, philosopherBox := w.philosopherBox[p := w.philosopherBox[p] + [m]])
    ensures OnDemand(w')
  {
    hide Told;
    forall f | 0 <= f < |w.forks| ensures Awaited(w'.forks[f], w'.forkBox[f], w'.philosopherBox, f) {
      assert Awaited(w.forks[f], w.forkBox[f], w.philosopherBox, f);
      ToldSame(w.philosopherBox[p], m, f);
    }
  }

  /** Who is to use its right fork next is eating. */
  predicate UsersEat(w: World)
    requires Shape(w)
  {
    forall p :: 0 <= p < |w.forks| && w.halfway[p].Some? && w.halfway[p].value.message.UsingFork? ==> w.philosophers[p].mode == Eating
  }

  lemma NextUsersEat(w: World, e: Event)
    requires Inv(w) && UsersEat(w)
    ensures UsersEat(Next(w, e))
  {
    hide HandlePhilosopher, ForkOk, HandleFork;
    if e.PhilosopherTurn? && e.p < |w.forks| && w.philosopherBox[e.p] != [] {
      HandlerSends(|w.forks|, e.p, w.philosophers[e.p], w.philosopherBox[e.p][0]);
    }
  }

  /** All that is known of every reachable state. */
  ghost predicate Sound(w: World)
  {
    Inv(w) && Live(w) && OnDemand(w) && UsersEat(w)
  }

  lemma NextSound(w: World, e: Event)
    requires Sound(w)
    ensures Sound(Next(w, e)) && Shape(w)
  {
    hide Live, OnDemand, UsersEat, Next;
    NextInv(w, e);
    NextLive(w, e);
    NextOnDemand(w, e);
    NextUsersEat(w, e);
  }

  lemma InitSound(n: nat)
    requires n >= 2
    ensures Sound(Init(n))
  {
    InitInv(n);
  }

  lemma {:induction false} RunSound(w: World, events: seq<Event>)
    requires Sound(w)
    ensures Shape(w) && Sound(Run(w, events))
    decreases |events|
  {
    SoundShape(w);
    hide Sound;
    if events != [] {
      NextSound(w, events[0]);
      RunSound(Next(w, events[0]), events[1..]);
    }
  }

  lemma SoundShape(w: World)
    requires Sound(w)
    ensures Shape(w)
  {
  }

  // ------------------------------------------------------------------ what a philosopher's mailbox holds for it

  function React(n: nat, p: Id, s: PhilosopherState, m: PhilosopherMessage): PhilosopherState
    requires n >= 2
  {
    HandlePhilosopher(p, Left(n, p), Right(n, p), s, m).state
  }

  /** The philosopher once it has handled these messages. */
  function Later(n: nat, p: Id, s: PhilosopherState, box: seq<PhilosopherMessage>): PhilosopherState
    requires n >= 2
    decreases |box|
  {
    if box == [] then s else Later(n, p, React(n, p, s, box[0]), box[1..])
  }

  /** The philosopher eats, or begins to while it handles these messages. */
  predicate EatsBy(n: nat, p: Id, s: PhilosopherState, box: seq<PhilosopherMessage>)
    requires n >= 2
    decreases |box|
  {
    s.mode == Eating || (box != [] && EatsBy(n, p, React(n, p, s, box[0]), box[1..]))
  }

  lemma {:induction false} LaterPush(n: nat, p: Id, s: PhilosopherState, box: seq<PhilosopherMessage>, m: PhilosopherMessage)
    requires n >= 2
    ensures Later(n, p, s, box + [m]) == React(n, p, Later(n, p, s, box), m)
    ensures EatsBy(n, p, s, box + [m]) <==> EatsBy(n, p, s, box) || React(n, p, Later(n, p, s, box), m).mode == Eating
    decreases |box|
  {
    hide React;
    var t := box + [m];
    if box == [] {
      assert t[1..] == [];
    } else {
      assert t[1..] == box[1..] + [m];
      LaterPush(n, p, React(n, p, s, box[0]), box[1..], m);
    }
  }

  /** Who eats has both forks, and has them from when it gets the second. */
  lemma ReactEats(n: nat, p: Id, s: PhilosopherState, m: PhilosopherMessage, f: Id)
    requires n >= 2 && (f == Left(n, p) || f == Right(n, p))
    requires s.mode != Eating && !HasFork(n, p, s, f) && m != ReceiveFork(f)
    ensures React(n, p, s, m).mode != Eating && !HasFork(n, p, React(n, p, s, m), f)
  {
  }

  lemma ReactGivesUp(n: nat, p: Id, s: PhilosopherState, f: Id)
    requires n >= 2 && (f == Left(n, p) || f == Right(n, p))
    ensures !HasFork(n, p, React(n, p, s, GiveUpFork(f)), f) && React(n, p, s, GiveUpFork(f)).mode == Thinking
  {
  }

  /** The philosopher will not have the fork when it has handled its mailbox. */
  ghost predicate Loses(n: nat, p: Id, s: PhilosopherState, box: seq<PhilosopherMessage>, f: Id)
    requires n >= 2
  {
    Told(box, f) || (!HasFork(n, p, s, f) && ReceiveFork(f) !in box)
  }

  lemma {:induction false} LosesIt(n: nat, p: Id, s: PhilosopherState, box: seq<PhilosopherMessage>, f: Id)
    requires n >= 2 && (f == Left(n, p) || f == Right(n, p)) && Loses(n, p, s, box, f) && !EatsBy(n, p, s, box)
    ensures !HasFork(n, p, Later(n, p, s, box), f)
    decreases |box|
  {
    if box == [] {
      assert !Told(box, f);
    } else {
      var s' := React(n, p, s, box[0]);
      if Told(box, f) {
        ToldTail(box, f);
        if !Told(box[1..], f) { ReactGivesUp(n, p, s, f); }
      } else {
        assert box[0] in box;
        ReactEats(n, p, s, box[0], f);
      }
      assert forall m :: m in box[1..] ==> m in box;
      hide React, HasFork, Told;
      LosesIt(n, p, s', box[1..], f);
    }
  }

  /** Eating does not depend on what has been asked for. */
  predicate SameHands(s: PhilosopherState, t: PhilosopherState)
  {
    s.mode == t.mode && s.changes == t.changes && s.left.has == t.left.has && s.right.has == t.right.has
  }

  lemma {:induction false} SameFate(n: nat, p: Id, s: PhilosopherState, t: PhilosopherState, box: seq<PhilosopherMessage>)
    requires n >= 2 && SameHands(s, t)
    ensures EatsBy(n, p, s, box) <==> EatsBy(n, p, t, box)
    decreases |box|
  {
    hide React;
    if box != [] {
      SameReact(n, p, s, t, box[0]);
      SameFate(n, p, React(n, p, s, box[0]), React(n, p, t, box[0]), box[1..]);
    }
  }

  lemma SameReact(n: nat, p: Id, s: PhilosopherState, t: PhilosopherState, m: PhilosopherMessage)
    requires n >= 2 && SameHands(s, t)
    ensures SameHands(React(n, p, s, m), React(n, p, t, m))
  {
  }

  // ------------------------------------------------------------------ the point of no return

  function Other(n: nat, f: Id, p: Id): Id { if p == f then Neighbour(n, f) else f }

  /** The fork will be with user `q`, clean, as long as nobody eats: it is, or `q` is the first
      to ask for it, or its owner has put it down or is told to. */
  ghost predicate GoesTo(w: World, f: Id, q: Id)
    requires Shape(w) && f < |w.forks|
  {
    var fork, box, p := w.forks[f], w.forkBox[f], Other(|w.forks|, f, q);
    match fork.ownedBy
    case None => fork.clean && box != [] && box[0] == RequestFork(q)
    case Some(o) =>
      if o == q then fork.clean && UsingFork(q) !in box && PutForkDown(q) !in box
      else PutForkDown(p) in box || (p < |w.forks| && Told(w.philosopherBox[p], f))
  }

  /** The user on the same side of every fork. */
  function Taker(n: nat, f: Id, left: bool): Id { if left then f else Neighbour(n, f) }

  /** The fork that the philosopher will not have. */
  function Lost(n: nat, p: Id, left: bool): Id requires n > 0 { if left then Right(n, p) else Left(n, p) }

  ghost predicate AllGo(w: World, left: bool)
    requires Shape(w)
  {
    forall f :: 0 <= f < |w.forks| ==> GoesTo(w, f, Taker(|w.forks|, f, left))
  }

  predicate NobodyEats(w: World)
    requires Shape(w)
  {
    forall p :: 0 <= p < |w.forks| ==> !EatsBy(|w.forks|, p, w.philosophers[p], w.philosopherBox[p])
  }

  /** Nobody eats or will by what is in its mailbox, and all forks go to the same side. */
  ghost predicate NoReturn(w: World)
    requires Shape(w)
  {
    NobodyEats(w) && (AllGo(w, true) || AllGo(w, false))
  }

  lemma LostIsLost(w: World, left: bool, p: Id)
    requires Sound(w) && Shape(w) && AllGo(w, left) && p < |w.forks|
    ensures var n := |w.forks|;
            && Lost(n, p, left) < n && Taker(n, Lost(n, p, left), left) != p
            && Loses(n, p, w.philosophers[p], w.philosopherBox[p], Lost(n, p, left))
  {
    hide PhilosopherOk, Live, OnDemand, Told;
    var n := |w.forks|;
    var f := Lost(n, p, left);
    assert ForkOk(w, f) && GoesTo(w, f, Taker(n, f, left));
    CountIn(w.forkBox[f], PutForkDown(p));
    assert ReceiveFork(f) in multiset(w.philosopherBox[p]) <==> ReceiveFork(f) in w.philosopherBox[p];
  }

  /** Whatever reaches a philosopher but its lost fork, it does not eat. */
  lemma StillHungry(w: World, left: bool, p: Id, m: PhilosopherMessage)
    requires Sound(w) && Shape(w) && AllGo(w, left) && NobodyEats(w) && p < |w.forks| && m != ReceiveFork(Lost(|w.forks|, p, left))
    ensures !EatsBy(|w.forks|, p, w.philosophers[p], w.philosopherBox[p] + [m])
  {
    hide Sound, AllGo, React, HasFork, Loses, EatsBy;
    var n, f, s, box := |w.forks|, Lost(|w.forks|, p, left), w.philosophers[p], w.philosopherBox[p];
    LostIsLost(w, left, p);
    LosesIt(n, p, s, box, f);
    LaterPush(n, p, s, box, m);
    NotEating(n, p, s, box);
    ReactEats(n, p, Later(n, p, s, box), m, f);
  }

  lemma {:induction false} NotEating(n: nat, p: Id, s: PhilosopherState, box: seq<PhilosopherMessage>)
    requires n >= 2 && !EatsBy(n, p, s, box)
    ensures Later(n, p, s, box).mode != Eating
    decreases |box|
  {
    hide React;
    if box != [] { NotEating(n, p, React(n, p, s, box[0]), box[1..]); }
  }

  // ------------------------------------------------------------------ there is no way back

  lemma ForkStepGoes(w: World, f: Id, q: Id)
    requires Sound(w) && Shape(w) && f < |w.forks| && w.forkBox[f] != [] && (q == f || q == Neighbour(|w.forks|, f)) && GoesTo(w, f, q)
    ensures var r := HandleFork(f, w.forks[f], w.forkBox[f][0]);
            && Shape(ForkStep(w, f)) && |ForkStep(w, f).forks| == |w.forks|
            && GoesTo(ForkStep(w, f), f, q)
            && (r.casts != [] && r.casts[0].message == ReceiveFork(f) ==> r.casts[0].to == q)
  {
    hide ForkStep, HandleFork, Told, PhilosopherOk, Live, ForkInv;
    assert ForkOk(w, f) && Awaited(w.forks[f], w.forkBox[f], w.philosopherBox, f);
    ForkStepCasts(w, f);
    TurnCases(f, w.forks[f], w.forkBox[f], SideOf(w, f, f), SideOf(w, Neighbour(|w.forks|, f), f));
    var r, box, p := HandleFork(f, w.forks[f], w.forkBox[f][0]), w.forkBox[f], Other(|w.forks|, f, q);
    assert box == [box[0]] + box[1..];
    assert forall m :: m in box[1..] ==> m in box;
    if w.forks[f].ownedBy.None? { NoReturnsYet(w, f); }
    if w.forks[f].ownedBy == Some(p) {
      AskedOnce(w, f, p);
      if r.casts != [] && r.casts[0] == Cast(p, GiveUpFork(f)) { ToldPush(w.philosopherBox[p], GiveUpFork(f), f); }
    }
  }

  /** While a user's request waits, its next message to the fork is no request, and neither is
      the owner's. */
  lemma AskedOnce(w: World, f: Id, p: Id)
    requires Sound(w) && Shape(w) && f < |w.forks| && (p == f || p == Neighbour(|w.forks|, f))
    requires w.forks[f].ownedBy == Some(p) && w.forks[f].backlog != [] && w.forkBox[f] != []
    ensures !w.forkBox[f][0].RequestFork?
  {
    hide PhilosopherOk, Live, OnDemand;
    assert ForkOk(w, f);
    var box, q := w.forkBox[f], Other(|w.forks|, f, p);
    assert box[..0] == [];
    assert w.forks[f].backlog == [RequestFork(q)];
    CountIn(box, RequestFork(q));
    assert Count([RequestFork(q)], RequestFork(q)) == 1;
  }

  lemma ForkStepGoesOn(w: World, f: Id, g: Id, q: Id)
    requires Sound(w) && Shape(w) && f < |w.forks| && w.forkBox[f] != [] && g < |w.forks| && g != f && GoesTo(w, g, q)
    ensures Shape(ForkStep(w, f)) && |ForkStep(w, f).forks| == |w.forks| && GoesTo(ForkStep(w, f), g, q)
  {
    hide ForkStep, HandleFork, Told, ForkOk, PhilosopherOk, Live, OnDemand;
    ForkStepCasts(w, f);
    var r, p := HandleFork(f, w.forks[f], w.forkBox[f][0]), Other(|w.forks|, g, q);
    if p < |w.forks| && Told(w.philosopherBox[p], g) && r.casts != [] && r.casts[0].to == p {
      ToldPush(w.philosopherBox[p], r.casts[0].message, g);
    }
  }

  lemma ForkStepNoReturn(w: World, f: Id, left: bool)
    requires Sound(w) && Shape(w) && AllGo(w, left) && NobodyEats(w) && f < |w.forks| && w.forkBox[f] != []
    ensures Shape(ForkStep(w, f)) && AllGo(ForkStep(w, f), left) && NobodyEats(ForkStep(w, f))
  {
    var n, q := |w.forks|, Taker(|w.forks|, f, left);
    assert GoesTo(w, f, q);
    hide ForkStep, HandleFork, GoesTo, EatsBy, ForkOk, PhilosopherOk, Live, OnDemand;
    var w' := ForkStep(w, f);
    ForkStepGoes(w, f, q);
    ForkStepCasts(w, f);
    var r := HandleFork(f, w.forks[f], w.forkBox[f][0]);
    forall g | 0 <= g < n ensures GoesTo(w', g, Taker(n, g, left)) {
      if g != f { ForkStepGoesOn(w, f, g, Taker(n, g, left)); }
    }
    forall p | 0 <= p < n ensures !EatsBy(n, p, w'.philosophers[p], w'.philosopherBox[p]) {
      if r.casts != [] && p == r.casts[0].to {
        LostIsLost(w, left, p);
        StillHungry(w, left, p, r.casts[0].message);
      }
    }
  }

  lemma TurnAdded(w: World, p: Id, f: Id) returns (added: seq<ForkMessage>)
    requires Inv(w) && p < |w.forks| && w.philosopherBox[p] != [] && w.halfway[p].None? && f < |w.forks|
    ensures var w', m := StartTurn(w, p), w.philosopherBox[p][0];
            && Shape(w') && |w'.forks| == |w.forks| && w'.forks == w.forks
            && w'.philosopherBox == w.philosopherBox[p := w.philosopherBox[p][1..]]
            && w'.forkBox[f] == w.forkBox[f] + added
            && (forall x :: x in added ==>
                  && x.who == p
                  && (x.PutForkDown? ==> m == GiveUpFork(f) && HasFork(|w.forks|, p, w.philosophers[p], f))
                  && (x.UsingFork? ==> w'.philosophers[p].mode == Eating))
  {
    hide StartTurn, ForkOk, PhilosopherOk;
    TurnAdds(w, p, f);
    var w', k := StartTurn(w, p), |w.forkBox[f]|;
    added := w'.forkBox[f][k..];
    assert w'.forkBox[f] == w'.forkBox[f][..k] + added;
    if |added| > 0 { assert added == [w'.forkBox[f][k]]; }
  }

  lemma OwnerIsUser(w: World, f: Id)
    requires Inv(w) && f < |w.forks|
    ensures w.forks[f].ownedBy.Some? ==> w.forks[f].ownedBy.value in {f, Neighbour(|w.forks|, f)}
  {
    hide PhilosopherOk;
    assert ForkOk(w, f);
  }

  /** The fork is clean with its user, who keeps it. */
  lemma KeepsClean(w: World, p: Id, f: Id, q: Id)
    requires Sound(w) && Shape(w) && NobodyEats(w) && p < |w.forks| && w.philosopherBox[p] != [] && w.halfway[p].None?
    requires f < |w.forks| && GoesTo(w, f, q) && w.forks[f].ownedBy == Some(q) && q < |w.forks|
    ensures var w' := StartTurn(w, p);
            Shape(w') && |w'.forks| == |w.forks| && GoesTo(w', f, q)
  {
    StartTurnEats(w, p);
    hide StartTurn, Told, ForkOk, PhilosopherOk, Live, EatsBy, HasFork;
    assert Awaited(w.forks[f], w.forkBox[f], w.philosopherBox, f);
    var added := TurnAdded(w, p, f);
    ToldAhead(w.philosopherBox[p], f);
    if HasFork(|w.forks|, p, w.philosophers[p], f) { HolderAwaitsNone(w, p, f); }
  }

  /** The fork is to be given up by its owner, who does so. */
  lemma GivesUp(w: World, p: Id, f: Id, q: Id)
    requires Sound(w) && Shape(w) && NobodyEats(w) && p < |w.forks| && w.philosopherBox[p] != [] && w.halfway[p].None?
    requires f < |w.forks| && GoesTo(w, f, q) && w.forks[f].ownedBy == Some(Other(|w.forks|, f, q)) && q != Other(|w.forks|, f, q)
    requires Other(|w.forks|, f, q) < |w.forks|
    ensures var w' := StartTurn(w, p);
            Shape(w') && |w'.forks| == |w.forks| && GoesTo(w', f, q)
  {
    hide StartTurn, Told, ForkOk, PhilosopherOk, Live, EatsBy, HasFork, OnDemand;
    var box, o := w.philosopherBox[p], Other(|w.forks|, f, q);
    var added := TurnAdded(w, p, f);
    if p == o && PutForkDown(p) !in w.forkBox[f] {
      ToldTail(box, f);
      if !Told(box[1..], f) {
        OwnerHolds(w, p, f);
        HolderGivesUp(w, p, f);
      }
    }
  }

  lemma StartTurnGoes(w: World, p: Id, f: Id, q: Id)
    requires Sound(w) && Shape(w) && NobodyEats(w) && p < |w.forks| && w.philosopherBox[p] != [] && w.halfway[p].None?
    requires f < |w.forks| && (q == f || q == Neighbour(|w.forks|, f)) && GoesTo(w, f, q)
    ensures var w' := StartTurn(w, p);
            Shape(w') && |w'.forks| == |w.forks| && GoesTo(w', f, q)
  {
    hide StartTurn, Told, ForkOk, PhilosopherOk, Live, EatsBy, HasFork, OnDemand;
    OwnerIsUser(w, f);
    if w.forks[f].ownedBy.None? {
      var added := TurnAdded(w, p, f);
    } else if w.forks[f].ownedBy == Some(q) {
      KeepsClean(w, p, f, q);
    } else {
      GivesUp(w, p, f, q);
    }
  }

  /** After its turn the philosopher is as it was to be. */
  lemma StartTurnEats(w: World, p: Id)
    requires Sound(w) && Shape(w) && NobodyEats(w) && p < |w.forks| && w.philosopherBox[p] != []
    ensures var w' := StartTurn(w, p);
            && w'.philosophers[p].mode != Eating
            && !EatsBy(|w.forks|, p, w'.philosophers[p], w.philosopherBox[p][1..])
  {
    hide ForkOk, PhilosopherOk, Live, OnDemand;
    var n, s, m := |w.forks|, w.philosophers[p], w.philosopherBox[p][0];
    var r := HandlePhilosopher(p, Left(n, p), Right(n, p), s, m);
    assert !EatsBy(n, p, s, w.philosopherBox[p]);
    assert !EatsBy(n, p, React(n, p, s, m), w.philosopherBox[p][1..]);
    assert SameHands(StartTurn(w, p).philosophers[p], r.state);
    hide HandlePhilosopher, React;
    SameFate(n, p, StartTurn(w, p).philosophers[p], r.state, w.philosopherBox[p][1..]);
  }

  lemma StartTurnNoReturn(w: World, p: Id, left: bool)
    requires Sound(w) && Shape(w) && AllGo(w, left) && NobodyEats(w) && p < |w.forks| && w.philosopherBox[p] != [] && w.halfway[p].None?
    ensures Shape(StartTurn(w, p)) && AllGo(StartTurn(w, p), left) && NobodyEats(StartTurn(w, p))
  {
    StartTurnEats(w, p);
    hide HandlePhilosopher, GoesTo, EatsBy, ForkOk, PhilosopherOk, Live, OnDemand;
    var n, w' := |w.forks|, StartTurn(w, p);
    StartTurnShape(w, p);
    forall f | 0 <= f < n ensures GoesTo(w', f, Taker(n, f, left)) {
      StartTurnGoes(w, p, f, Taker(n, f, left));
    }
  }

  lemma EndTurnNoReturn(w: World, p: Id, left: bool)
    requires Sound(w) && Shape(w) && AllGo(w, left) && NobodyEats(w) && p < |w.forks| && w.halfway[p].Some?
    ensures AllGo(EndTurn(w, p), left) && NobodyEats(EndTurn(w, p))
  {
    hide ForkOk, Live, OnDemand, Told, React;
    var n, w' := |w.forks|, EndTurn(w, p);
    assert PhilosopherOk(w, p);
    assert !EatsBy(n, p, w.philosophers[p], w.philosopherBox[p]);
    assert w.halfway[p].value.message == RequestFork(p);
    SameFate(n, p, w.philosophers[p], w'.philosophers[p], w.philosopherBox[p]);
    forall f | 0 <= f < n ensures GoesTo(w', f, Taker(n, f, left)) {
      assert GoesTo(w, f, Taker(n, f, left));
    }
  }

  lemma DeliveryNoReturn(w: World, w': World, p: Id, m: PhilosopherMessage, left: bool)
    requires Sound(w) && Shape(w) && AllGo(w, left) && NobodyEats(w) && p < |w.forks| && !m.ReceiveFork? && |w'.timers| == |w.timers|
    requires w' == w.(timers := w'.timers, philosopherBox := w.philosopherBox[p := w.philosopherBox[p] + [m]])
    ensures Shape(w') && AllGo(w', left) && NobodyEats(w')
  {
    StillHungry(w, left, p, m);
    hide Sound, Told, EatsBy;
    forall f | 0 <= f < |w.forks| ensures GoesTo(w', f, Taker(|w.forks|, f, left)) {
      assert GoesTo(w, f, Taker(|w.forks|, f, left));
      if Told(w.philosopherBox[p], f) { ToldPush(w.philosopherBox[p], m, f); }
    }
  }

  lemma NextNoReturn(w: World, e: Event, left: bool)
    requires Sound(w) && Shape(w) && AllGo(w, left) && NobodyEats(w)
    ensures AllGo(Next(w, e), left) && NobodyEats(Next(w, e))
  {
    hide ForkOk, ForkStep, StartTurn, EndTurn, AllGo, NobodyEats, Live, OnDemand, UsersEat;
    match e
    case ForkTurn(f) => if f < |w.forks| && w.forkBox[f] != [] { ForkStepNoReturn(w, f, left); }
    case PhilosopherTurn(p) => if p < |w.forks| && w.philosopherBox[p] != [] && w.halfway[p].None? { StartTurnNoReturn(w, p, left); }
    case FinishTurn(p) => if p < |w.forks| && w.halfway[p].Some? { EndTurnNoReturn(w, p, left); }
    case TimerFires(p, i) =>
      if p < |w.forks| && i < |w.timers[p]| {
        assert PhilosopherOk(w, p) && w.timers[p][i] in w.timers[p];
        DeliveryNoReturn(w, Next(w, e), p, w.timers[p][i], left);
      }
    case AskMetrics(p) => if p < |w.forks| { DeliveryNoReturn(w, Next(w, e), p, SendMetrics, left); }
  }

  lemma {:induction false} RunNoReturn(w: World, events: seq<Event>, left: bool)
    requires Sound(w) && Shape(w) && AllGo(w, left) && NobodyEats(w)
    ensures AllGo(Run(w, events), left) && NobodyEats(Run(w, events))
    decreases |events|
  {
    hide Sound, AllGo, NobodyEats;
    if events != [] {
      NextSound(w, events[0]);
      NextNoReturn(w, events[0], left);
      RunNoReturn(Next(w, events[0]), events[1..], left);
    }
  }
}
