/**
 Before the point of no return somebody can still eat: a philosopher neither of whose forks is
 bound to its neighbour gets both of them, if only the right actors are scheduled.
 */
module PhilosophersChance {
  import opened Options
  import opened Philosophers
  import opened PhilosophersRing
  import opened PhilosophersRest
  import opened PhilosophersFate
  import opened PhilosophersStuck

  predicate SomebodyEats(w: World)
    requires Shape(w)
  {
    exists p :: 0 <= p < |w.forks| && w.philosophers[p].mode == Eating
  }

  ghost predicate CanEat(w: World)
    requires Shape(w)
  {
    exists more :: SomebodyEats(Run(w, more))
  }

  lemma EatsNow(w: World)
    requires Shape(w) && SomebodyEats(w)
    ensures CanEat(w)
  {
    assert Run(w, []) == w;
  }

  lemma EatsAfter(w: World, e: Event)
    requires Shape(w) && CanEat(Next(w, e))
    ensures CanEat(w)
  {
    var more :| SomebodyEats(Run(Next(w, e), more));
    assert ([e] + more)[1..] == more;
    assert Run(w, [e] + more) == Run(Next(w, e), more);
  }

  // ------------------------------------------------------------------ a fork that is still open to a philosopher

  predicate IsFork(n: nat, p: Id, f: Id) requires n > 0 { f == Left(n, p) || f == Right(n, p) }

  function HandOf(n: nat, p: Id, s: PhilosopherState, f: Id): Hand { if f == Left(n, p) then s.left else s.right }

  ghost predicate Free(w: World, p: Id, f: Id)
    requires Shape(w) && f < |w.forks|
  {
    !GoesTo(w, f, Other(|w.forks|, f, p))
  }

  /** The philosopher has the fork, or has asked for it and it is not bound to the neighbour. */
  ghost predicate Open(w: World, p: Id, f: Id)
    requires Shape(w) && f < |w.forks| && p < |w.forks|
  {
    var hand := HandOf(|w.forks|, p, w.philosophers[p], f);
    hand.has || (hand.requested && Free(w, p, f))
  }

  /** Asked for an unowned fork, there is a request in its mailbox. */
  lemma AskedIsPending(w: World, p: Id, f: Id)
    requires Inv(w) && p < |w.forks| && f < |w.forks| && IsFork(|w.forks|, p, f)
    ensures w.forks[f].ownedBy.None? && HandOf(|w.forks|, p, w.philosophers[p], f).requested ==> w.forkBox[f] != []
    ensures HandOf(|w.forks|, p, w.philosophers[p], f).has ==> !HandOf(|w.forks|, p, w.philosophers[p], f).requested
  {
    hide PhilosopherOk;
    assert ForkOk(w, f);
  }

  lemma OpenAfterFork(w: World, f: Id, p: Id, g: Id)
    requires Inv(w) && f < |w.forks| && w.forkBox[f] != [] && p < |w.forks| && g < |w.forks| && g != f && Open(w, p, g)
    ensures Shape(ForkStep(w, f)) && |ForkStep(w, f).forks| == |w.forks| && Open(ForkStep(w, f), p, g)
  {
    hide ForkStep, HandleFork, Told, ForkOk, PhilosopherOk;
    ForkStepCasts(w, f);
    CastsTo(w, f);
  }

  /** Another philosopher's messages do not bind a fork that was asked for. */
  lemma OpenAfterMessages(w: World, w': World, p: Id, f: Id, added: seq<ForkMessage>)
    requires Inv(w) && Shape(w') && |w'.forks| == |w.forks| && p < |w.forks| && f < |w.forks| && IsFork(|w.forks|, p, f) && Open(w, p, f)
    requires w'.forks[f] == w.forks[f] && w'.forkBox[f] == w.forkBox[f] + added && forall m :: m in added ==> m.who != p
    requires w'.philosophers[p] == w.philosophers[p] && w'.philosopherBox[p] == w.philosopherBox[p]
    ensures Open(w', p, f)
  {
    hide ForkOk, PhilosopherOk, Told;
    AskedIsPending(w, p, f);
  }

  lemma OpenAfterTurn(w: World, x: Id, p: Id, f: Id)
    requires Inv(w) && x < |w.forks| && w.philosopherBox[x] != [] && w.halfway[x].None?
    requires p < |w.forks| && p != x && f < |w.forks| && IsFork(|w.forks|, p, f) && Open(w, p, f)
    ensures Shape(StartTurn(w, x)) && |StartTurn(w, x).forks| == |w.forks| && Open(StartTurn(w, x), p, f)
  {
    var added := TurnAdded(w, x, f);
    TurnKeepsOthers(w, x, p);
    hide StartTurn, Open, ForkOk, PhilosopherOk;
    OpenAfterMessages(w, StartTurn(w, x), p, f, added);
  }

  lemma TurnKeepsOthers(w: World, x: Id, p: Id)
    requires Shape(w) && x < |w.forks| && w.philosopherBox[x] != [] && p < |w.forks| && p != x
    ensures var w' := StartTurn(w, x);
            && |w'.philosophers| == |w'.philosopherBox| == |w'.halfway| == |w.forks|
            && w'.philosophers[p] == w.philosophers[p] && w'.philosopherBox[p] == w.philosopherBox[p] && w'.halfway[p] == w.halfway[p]
            && w'.philosopherBox[x] == w.philosopherBox[x][1..] && w'.forks == w.forks
  {
    hide HandlePhilosopher;
  }

  lemma OpenAfterEnd(w: World, x: Id, p: Id, f: Id)
    requires Sound(w) && Shape(w) && x < |w.forks| && w.halfway[x].Some?
    requires p < |w.forks| && p != x && f < |w.forks| && IsFork(|w.forks|, p, f) && Open(w, p, f)
    ensures Open(EndTurn(w, x), p, f)
  {
    hide Open, ForkOk, Live, OnDemand;
    assert PhilosopherOk(w, x);
    var w' := EndTurn(w, x);
    var added := if f == Right(|w.forks|, x) then [w.halfway[x].value.message] else [];
    assert w'.forkBox[f] == w.forkBox[f] + added;
    OpenAfterMessages(w, w', p, f, added);
  }

  // ------------------------------------------------------------------ getting one fork

  /** A hungry philosopher with an empty mailbox that may still get both of its forks. */
  ghost predicate Seeks(w: World, p: Id)
    requires Shape(w)
  {
    && Sound(w) && p < |w.forks|
    && w.philosophers[p].mode == Hungry && w.halfway[p].None?
    && Open(w, p, Left(|w.forks|, p)) && Open(w, p, Right(|w.forks|, p))
  }

  function Lacks(w: World, p: Id): nat
    requires Shape(w) && p < |w.forks|
  {
    Bit(!w.philosophers[p].left.has) + Bit(!w.philosophers[p].right.has)
  }

  /** The fork is on its way to the philosopher. */
  ghost predicate Granted(w: World, p: Id, f: Id)
    requires Shape(w)
  {
    && Sound(w) && p < |w.forks| && IsFork(|w.forks|, p, f)
    && w.philosophers[p].mode == Hungry && w.halfway[p].None? && w.philosopherBox[p] == [ReceiveFork(f)]
    && !HandOf(|w.forks|, p, w.philosophers[p], f).has
    && Open(w, p, if f == Left(|w.forks|, p) then Right(|w.forks|, p) else Left(|w.forks|, p))
  }

  lemma ForkStepFree(w: World, f: Id, p: Id)
    requires Sound(w) && Shape(w) && p < |w.forks| && f < |w.forks| && IsFork(|w.forks|, p, f) && w.forkBox[f] != [] && Free(w, p, f)
    requires HandOf(|w.forks|, p, w.philosophers[p], f) == Hand(false, true) && w.philosopherBox[p] == []
    ensures var r := HandleFork(f, w.forks[f], w.forkBox[f][0]);
            && Shape(ForkStep(w, f)) && |ForkStep(w, f).forks| == |w.forks|
            && (r.casts == [Cast(p, ReceiveFork(f))] || (Free(ForkStep(w, f), p, f) && (r.casts != [] ==> r.casts[0].to != p)))
  {
    hide ForkStep, HandleFork, Told, PhilosopherOk, Live, ForkInv;
    var n, q, box := |w.forks|, Other(|w.forks|, f, p), w.forkBox[f];
    assert ForkOk(w, f) && Awaited(w.forks[f], box, w.philosopherBox, f);
    ForkStepCasts(w, f);
    TurnCases(f, w.forks[f], box, SideOf(w, f, f), SideOf(w, Neighbour(n, f), f));
    assert box == [box[0]] + box[1..];
    NotMine(w, f, p);
  }

  /** Asked for and not on its way, the fork is not the philosopher's, unless it has put it down. */
  lemma NotMine(w: World, f: Id, p: Id)
    requires Inv(w) && p < |w.forks| && f < |w.forks| && IsFork(|w.forks|, p, f)
    requires !HandOf(|w.forks|, p, w.philosophers[p], f).has && ReceiveFork(f) !in w.philosopherBox[p]
    ensures w.forks[f].ownedBy == Some(p) ==> PutForkDown(p) in w.forkBox[f]
  {
    hide PhilosopherOk;
    assert ForkOk(w, f);
    CountIn(w.forkBox[f], PutForkDown(p));
    assert ReceiveFork(f) in multiset(w.philosopherBox[p]) <==> ReceiveFork(f) in w.philosopherBox[p];
  }

  lemma ForkTurnSeeks(w: World, p: Id, f: Id)
    requires Shape(w) && Seeks(w, p) && w.philosopherBox[p] == [] && f < |w.forks| && IsFork(|w.forks|, p, f) && w.forkBox[f] != []
    requires !HandOf(|w.forks|, p, w.philosophers[p], f).has
    ensures var w' := Next(w, ForkTurn(f));
            && w'.philosophers == w.philosophers && w'.forkBox[f] == w.forkBox[f][1..]
            && (Granted(w', p, f) || (Seeks(w', p) && w'.philosopherBox[p] == []))
  {
    var n := |w.forks|;
    var w', g := Next(w, ForkTurn(f)), if f == Left(n, p) then Right(n, p) else Left(n, p);
    NextSound(w, ForkTurn(f));
    hide ForkStep, HandleFork, Free, Inv, Live, OnDemand, UsersEat;
    InvOf(w);
    AskedIsPending(w, p, f);
    ForkStepCasts(w, f);
    ForkStepFree(w, f, p);
    OpenAfterFork(w, f, p, g);
  }

  lemma InvOf(w: World)
    requires Sound(w)
    ensures Inv(w)
  {
  }

  /** With its mailbox empty, the fork is used by its owner, who is told to give it up. */
  lemma OwnerIsTold(w: World, p: Id, f: Id)
    requires Shape(w) && Seeks(w, p) && w.philosopherBox[p] == [] && f < |w.forks| && IsFork(|w.forks|, p, f) && w.forkBox[f] == []
    requires !HandOf(|w.forks|, p, w.philosophers[p], f).has
    ensures Yields(w, p, f)
  {
    hide PhilosopherOk, OnDemand, UsersEat, Told;
    var n, q := |w.forks|, Other(|w.forks|, f, p);
    assert ForkOk(w, f) && Promised(w.forks[f], w.forkBox[f], w.philosopherBox, f);
    NotMine(w, f, p);
    AskedIsPending(w, p, f);
    assert Open(w, p, f);
    var empty: seq<ForkMessage> := [];
    forall m ensures Count(empty, m) == 0 {}
  }

  /** The neighbour owns the fork and will give it up to the philosopher. */
  ghost predicate Yields(w: World, p: Id, f: Id)
    requires Shape(w)
  {
    && f < |w.forks| && p < |w.forks|
    && var q := Other(|w.forks|, f, p);
       && q < |w.forks| && q != p && w.forks[f].ownedBy == Some(q) && !w.forks[f].clean && w.forks[f].backlog == [RequestFork(p)]
  }

  /** The neighbour handles one message of its mailbox, or the rest of one. */
  lemma NeighbourSeeks(w: World, p: Id, f: Id, e: Event)
    requires Shape(w) && Seeks(w, p) && w.philosopherBox[p] == [] && f < |w.forks| && IsFork(|w.forks|, p, f) && Yields(w, p, f)
    requires var q := Other(|w.forks|, f, p);
             if w.halfway[q].Some? then e == FinishTurn(q) else e == PhilosopherTurn(q) && w.philosopherBox[q] != []
    ensures var w', q := Next(w, e), Other(|w.forks|, f, p);
            && Seeks(w', p) && w'.philosopherBox[p] == [] && Yields(w', p, f) && w'.philosophers[p] == w.philosophers[p]
            && if w.halfway[q].Some? then w'.halfway[q].None? && w'.philosopherBox[q] == w.philosopherBox[q]
               else w'.philosopherBox[q] == w.philosopherBox[q][1..]
  {
    var n, q := |w.forks|, Other(|w.forks|, f, p);
    NextSound(w, e);
    InvOf(w);
    hide StartTurn, Open, Inv, Live, OnDemand, UsersEat;
    if w.halfway[q].Some? {
      OpenAfterEnd(w, q, p, Left(n, p));
      OpenAfterEnd(w, q, p, Right(n, p));
    } else {
      TurnKeepsOthers(w, q, p);
      OpenAfterTurn(w, q, p, Left(n, p));
      OpenAfterTurn(w, q, p, Right(n, p));
    }
  }

  lemma ToldHasMail(box: seq<PhilosopherMessage>, f: Id)
    requires Told(box, f)
    ensures box != []
  {
  }

  /** The philosopher takes the fork, and eats if it has the other one. */
  lemma TakesFork(w: World, p: Id, f: Id)
    requires Shape(w) && Granted(w, p, f)
    ensures var w' := Next(w, PhilosopherTurn(p));
            SomebodyEats(w') || (Seeks(w', p) && w'.philosopherBox[p] == [] && Lacks(w', p) < Lacks(w, p))
  {
    NextSound(w, PhilosopherTurn(p));
    hide Sound, GoesTo;
    var n, w' := |w.forks|, Next(w, PhilosopherTurn(p));
    var g := if f == Left(n, p) then Right(n, p) else Left(n, p);
    if w'.philosophers[p].mode == Eating {
      assert SomebodyEats(w');
    } else {
      assert w'.forks == w.forks && w'.forkBox[g] == w.forkBox[g] + [] == w.forkBox[g];
      NothingNew(w, w', p, g);
    }
  }

  lemma NothingNew(w: World, w': World, p: Id, g: Id)
    requires Shape(w) && Shape(w') && |w'.forks| == |w.forks| && p < |w.forks| && g < |w.forks| && IsFork(|w.forks|, p, g) && Open(w, p, g)
    requires w'.forks == w.forks && w'.forkBox[g] == w.forkBox[g] && w'.philosopherBox[p] == []
    requires HandOf(|w.forks|, p, w'.philosophers[p], g) == HandOf(|w.forks|, p, w.philosophers[p], g)
    ensures Open(w', p, g)
  {
    assert !Told([], g);
  }

  lemma {:induction false} Take(w: World, p: Id, f: Id)
    requires Shape(w) && Granted(w, p, f)
    ensures CanEat(w)
    decreases Lacks(w, p), 0, 0
  {
    hide Granted, Seeks, CanEat, SomebodyEats, Next, Lacks;
    GrantedIs(w, p, f);
    var w' := Next(w, PhilosopherTurn(p));
    TakesFork(w, p, f);
    if SomebodyEats(w') { EatsNow(w'); } else { Seek(w', p); }
    EatsAfter(w, PhilosopherTurn(p));
  }

  lemma GrantedIs(w: World, p: Id, f: Id)
    requires Shape(w) && Granted(w, p, f)
    ensures p < |w.forks|
  {
  }

  /** The fork comes back and goes to the philosopher. */
  lemma {:induction false} Await(w: World, p: Id, f: Id)
    requires Shape(w) && Seeks(w, p) && w.philosopherBox[p] == [] && f < |w.forks| && IsFork(|w.forks|, p, f) && Yields(w, p, f)
    requires !HandOf(|w.forks|, p, w.philosophers[p], f).has && PutForkDown(Other(|w.forks|, f, p)) in w.forkBox[f]
    ensures CanEat(w)
    decreases Lacks(w, p), 1, |w.forkBox[f]|
  {
    hide Granted, Open, CanEat, ForkStep;
    var w' := Next(w, ForkTurn(f));
    ForkTurnSeeks(w, p, f);
    ComesBack(w, p, f);
    if Granted(w', p, f) { Take(w', p, f); } else { Await(w', p, f); }
    EatsAfter(w, ForkTurn(f));
  }

  lemma ComesBack(w: World, p: Id, f: Id)
    requires Shape(w) && Seeks(w, p) && w.philosopherBox[p] == [] && f < |w.forks| && IsFork(|w.forks|, p, f) && Yields(w, p, f)
    requires PutForkDown(Other(|w.forks|, f, p)) in w.forkBox[f]
    ensures var w', q := Next(w, ForkTurn(f)), Other(|w.forks|, f, p);
            w'.philosopherBox[p] == [] ==> Yields(w', p, f) && PutForkDown(q) in w'.forkBox[f]
  {
    hide ForkStep, HandleFork, PhilosopherOk, Open, ForkInv, Live, OnDemand, UsersEat;
    var n, q, box := |w.forks|, Other(|w.forks|, f, p), w.forkBox[f];
    assert ForkOk(w, f);
    ForkStepCasts(w, f);
    TurnCases(f, w.forks[f], box, SideOf(w, f, f), SideOf(w, Neighbour(n, f), f));
    AskedOnce(w, f, q);
    assert box == [box[0]] + box[1..];
  }

  /** The neighbour comes to the message that tells it to give the fork up. */
  lemma {:induction false} Urge(w: World, p: Id, f: Id)
    requires Shape(w) && Seeks(w, p) && w.philosopherBox[p] == [] && f < |w.forks| && IsFork(|w.forks|, p, f) && Yields(w, p, f)
    requires !HandOf(|w.forks|, p, w.philosophers[p], f).has
    ensures CanEat(w)
    decreases Lacks(w, p), 2, 2 * |w.philosopherBox[Other(|w.forks|, f, p)]| + Bit(w.halfway[Other(|w.forks|, f, p)].Some?)
  {
    hide Granted, Open, CanEat, Next, Sound, Told;
    var q := Other(|w.forks|, f, p);
    PromisedOf(w, f);
    if PutForkDown(q) in w.forkBox[f] {
      Await(w, p, f);
    } else {
      ToldHasMail(w.philosopherBox[q], f);
      var e := if w.halfway[q].Some? then FinishTurn(q) else PhilosopherTurn(q);
      NeighbourSeeks(w, p, f, e);
      Urge(Next(w, e), p, f);
      EatsAfter(w, e);
    }
  }

  lemma PromisedOf(w: World, f: Id)
    requires Sound(w) && Shape(w) && f < |w.forks|
    ensures Promised(w.forks[f], w.forkBox[f], w.philosopherBox, f)
  {
  }

  /** The fork handles its mailbox until it is granted or its mailbox is empty. */
  lemma {:induction false} Obtain(w: World, p: Id, f: Id)
    requires Shape(w) && Seeks(w, p) && w.philosopherBox[p] == [] && f < |w.forks| && IsFork(|w.forks|, p, f)
    requires !HandOf(|w.forks|, p, w.philosophers[p], f).has
    ensures CanEat(w)
    decreases Lacks(w, p), 3, |w.forkBox[f]|
  {
    hide Granted, Open, CanEat, ForkStep, Sound, Yields;
    if w.forkBox[f] == [] {
      OwnerIsTold(w, p, f);
      Urge(w, p, f);
    } else {
      var w' := Next(w, ForkTurn(f));
      ForkTurnSeeks(w, p, f);
      if Granted(w', p, f) { Take(w', p, f); } else { Obtain(w', p, f); }
      EatsAfter(w, ForkTurn(f));
    }
  }

  lemma {:induction false} Seek(w: World, p: Id)
    requires Shape(w) && Seeks(w, p) && w.philosopherBox[p] == []
    ensures CanEat(w)
    decreases Lacks(w, p), 4, 0
  {
    hide Open, CanEat;
    assert ModeOk(w.philosophers[p], w.philosopherBox[p], w.timers[p], w.halfway[p]);
    var n := |w.forks|;
    Obtain(w, p, if w.philosophers[p].left.has then Right(n, p) else Left(n, p));
  }

  // ------------------------------------------------------------------ emptying the mailbox first

  /** Nothing that a philosopher does in its own turn, short of eating, binds its forks. */
  lemma FreeAfterTurn(w: World, p: Id, f: Id)
    requires Sound(w) && Shape(w) && p < |w.forks| && w.philosopherBox[p] != [] && w.halfway[p].None?
    requires f < |w.forks| && IsFork(|w.forks|, p, f) && Free(w, p, f) && StartTurn(w, p).philosophers[p].mode != Eating
    ensures Shape(StartTurn(w, p)) && |StartTurn(w, p).forks| == |w.forks| && Free(StartTurn(w, p), p, f)
  {
    hide StartTurn, ForkOk, PhilosopherOk, Told, Live, OnDemand, UsersEat, HasFork;
    var added := TurnAdded(w, p, f);
    ToldAhead(w.philosopherBox[p], f);
    OwnerIsUser(w, f);
    if HasFork(|w.forks|, p, w.philosophers[p], f) { HolderAwaitsNone(w, p, f); }
  }

  lemma FreeAfterEnd(w: World, p: Id, f: Id)
    requires Sound(w) && Shape(w) && p < |w.forks| && w.halfway[p].Some? && w.philosophers[p].mode != Eating
    requires f < |w.forks| && IsFork(|w.forks|, p, f) && Free(w, p, f)
    ensures Free(EndTurn(w, p), p, f)
  {
    hide ForkOk, Told, Live, OnDemand;
    assert PhilosopherOk(w, p);
    assert w.halfway[p].value.message == RequestFork(p);
    OwnerIsUser(w, f);
  }

  lemma FreeAfterTimer(w: World, p: Id, f: Id, i: nat)
    requires Sound(w) && Shape(w) && p < |w.forks| && i < |w.timers[p]| && f < |w.forks| && IsFork(|w.forks|, p, f) && Free(w, p, f)
    ensures Free(Next(w, TimerFires(p, i)), p, f)
  {
    hide ForkOk, Told, Live, OnDemand, UsersEat;
    assert PhilosopherOk(w, p) && w.timers[p][i] in w.timers[p];
    ToldSame(w.philosopherBox[p], w.timers[p][i], f);
    OwnerIsUser(w, f);
  }

  ghost predicate BothFree(w: World, p: Id)
    requires Shape(w)
  {
    Sound(w) && p < |w.forks| && Free(w, p, Left(|w.forks|, p)) && Free(w, p, Right(|w.forks|, p))
  }

  /** One step of the philosopher itself. */
  lemma OwnStep(w: World, p: Id, e: Event)
    requires Shape(w) && BothFree(w, p) && w.philosophers[p].mode != Eating
    requires if w.halfway[p].Some? then e == FinishTurn(p) else e == PhilosopherTurn(p) && w.philosopherBox[p] != []
    ensures var w' := Next(w, e);
            && (w'.philosophers[p].mode == Eating || BothFree(w', p))
            && if w.halfway[p].Some? then
                 w'.halfway[p].None? && w'.philosopherBox[p] == w.philosopherBox[p] && w'.philosophers[p].mode == w.philosophers[p].mode
               else w'.philosopherBox[p] == w.philosopherBox[p][1..]
  {
    NextSound(w, e);
    hide HandlePhilosopher, Free, Sound;
    var n, w' := |w.forks|, Next(w, e);
    if w.halfway[p].Some? {
      FreeAfterEnd(w, p, Left(n, p));
      FreeAfterEnd(w, p, Right(n, p));
    } else if w'.philosophers[p].mode != Eating {
      FreeAfterTurn(w, p, Left(n, p));
      FreeAfterTurn(w, p, Right(n, p));
    }
  }

  lemma EatsIf(w: World, p: Id)
    requires Shape(w) && p < |w.forks| && w.philosophers[p].mode == Eating
    ensures CanEat(w)
  {
    assert SomebodyEats(w);
    EatsNow(w);
  }

  lemma FromHungry(w: World, p: Id)
    requires Shape(w) && BothFree(w, p) && w.philosophers[p].mode == Hungry && w.philosopherBox[p] == []
    ensures CanEat(w)
  {
    hide CanEat, Next;
    if w.halfway[p].Some? {
      hide Sound, Free;
      OwnStep(w, p, FinishTurn(p));
      var w' := Next(w, FinishTurn(p));
      SeeksNow(w', p);
      Seek(w', p);
      EatsAfter(w, FinishTurn(p));
    } else {
      SeeksNow(w, p);
      Seek(w, p);
    }
  }

  lemma SeeksNow(w: World, p: Id)
    requires Shape(w) && BothFree(w, p) && w.philosophers[p].mode == Hungry && w.halfway[p].None?
    ensures Seeks(w, p)
  {
    hide GoesTo, Inv, OnDemand, UsersEat;
    assert ModeOk(w.philosophers[p], w.philosopherBox[p], w.timers[p], w.halfway[p]);
  }

  /** A thinking philosopher whose mailbox is empty is going to be hungry. */
  lemma FromThinking(w: World, p: Id)
    requires Shape(w) && BothFree(w, p) && w.philosophers[p].mode == Thinking && w.philosopherBox[p] == [] && w.halfway[p].None?
    ensures CanEat(w)
  {
    assert ModeOk(w.philosophers[p], w.philosopherBox[p], w.timers[p], w.halfway[p]);
    var n, s := |w.forks|, w.philosophers[p];
    var i :| 0 <= i < |w.timers[p]| && w.timers[p][i] == BecomeHungry(s.changes);
    var w1 := Next(w, TimerFires(p, i));
    NextSound(w, TimerFires(p, i));
    FreeAfterTimer(w, p, Left(n, p), i);
    FreeAfterTimer(w, p, Right(n, p), i);
    assert w1.philosopherBox[p] == [BecomeHungry(s.changes)];
    hide CanEat, Sound, Free;
    OwnStep(w1, p, PhilosopherTurn(p));
    var w2 := Next(w1, PhilosopherTurn(p));
    assert w2.philosophers[p].mode != Thinking;
    if w2.philosophers[p].mode == Eating { EatsIf(w2, p); } else { FromHungry(w2, p); }
    EatsAfter(w1, PhilosopherTurn(p));
    EatsAfter(w, TimerFires(p, i));
  }

  /** A philosopher neither of whose forks is bound to a neighbour can eat, or somebody else can. */
  lemma {:induction false} FreeCanEat(w: World, p: Id)
    requires Shape(w) && BothFree(w, p)
    ensures CanEat(w)
    decreases 2 * |w.philosopherBox[p]| + Bit(w.halfway[p].Some?)
  {
    hide CanEat, Next, Free, Sound;
    if w.philosophers[p].mode == Eating {
      EatsIf(w, p);
    } else if w.halfway[p].Some? || w.philosopherBox[p] != [] {
      var e := if w.halfway[p].Some? then FinishTurn(p) else PhilosopherTurn(p);
      OwnStep(w, p, e);
      var w' := Next(w, e);
      if w'.philosophers[p].mode == Eating { EatsIf(w', p); } else { FreeCanEat(w', p); }
      EatsAfter(w, e);
    } else if w.philosophers[p].mode == Thinking {
      FromThinking(w, p);
    } else {
      FromHungry(w, p);
    }
  }

  /** Who eats by what is in its mailbox can eat. */
  lemma {:induction false} MailCanEat(w: World, p: Id)
    requires Sound(w) && Shape(w) && p < |w.forks| && EatsBy(|w.forks|, p, w.philosophers[p], w.philosopherBox[p])
    ensures CanEat(w)
    decreases 2 * |w.philosopherBox[p]| + Bit(w.halfway[p].Some?)
  {
    hide CanEat, HandlePhilosopher, React, Inv, Live, OnDemand;
    if w.philosophers[p].mode == Eating {
      EatsIf(w, p);
    } else {
      var e := if w.halfway[p].Some? then FinishTurn(p) else PhilosopherTurn(p);
      NextSound(w, e);
      MailGoesOn(w, p, e);
      MailCanEat(Next(w, e), p);
      EatsAfter(w, e);
    }
  }

  lemma MailGoesOn(w: World, p: Id, e: Event)
    requires Sound(w) && Shape(w) && p < |w.forks| && EatsBy(|w.forks|, p, w.philosophers[p], w.philosopherBox[p])
    requires w.philosophers[p].mode != Eating && e == if w.halfway[p].Some? then FinishTurn(p) else PhilosopherTurn(p)
    ensures var w' := Next(w, e);
            && EatsBy(|w.forks|, p, w'.philosophers[p], w'.philosopherBox[p])
            && if w.halfway[p].Some? then w'.halfway[p].None? && w'.philosopherBox[p] == w.philosopherBox[p]
               else w.philosopherBox[p] != [] && w'.philosopherBox[p] == w.philosopherBox[p][1..]
  {
    hide ForkOk, Live, OnDemand;
    assert PhilosopherOk(w, p);
    var n, s, box, w' := |w.forks|, w.philosophers[p], w.philosopherBox[p], Next(w, e);
    if w.halfway[p].Some? {
      SameFate(n, p, s, w'.philosophers[p], box);
    } else {
      var r := HandlePhilosopher(p, Left(n, p), Right(n, p), s, box[0]);
      assert EatsBy(n, p, React(n, p, s, box[0]), box[1..]);
      assert SameHands(r.state, w'.philosophers[p]);
      hide HandlePhilosopher, React;
      SameFate(n, p, r.state, w'.philosophers[p], box[1..]);
    }
  }

  // ------------------------------------------------------------------ around the table

  lemma NotBoth(w: World, f: Id)
    requires Sound(w) && Shape(w) && f < |w.forks|
    ensures !(GoesTo(w, f, f) && GoesTo(w, f, Neighbour(|w.forks|, f)))
  {
    hide ForkOk, PhilosopherOk, Live, UsersEat, Told;
    assert Awaited(w.forks[f], w.forkBox[f], w.philosopherBox, f);
    OwnerIsUser(w, f);
  }

  ghost predicate NobodyFree(w: World)
    requires Shape(w)
  {
    forall p :: 0 <= p < |w.forks| ==> GoesTo(w, p, Neighbour(|w.forks|, p)) || GoesTo(w, Right(|w.forks|, p), Right(|w.forks|, p))
  }

  lemma {:induction false} Upward(w: World, f: Id, g: Id)
    requires Sound(w) && Shape(w) && NobodyFree(w) && f <= g < |w.forks| && !GoesTo(w, f, f)
    ensures !GoesTo(w, g, g)
    decreases g
  {
    if f < g {
      hide GoesTo, Sound;
      Upward(w, f, g - 1);
      NotBoth(w, g);
      assert Right(|w.forks|, g) == g - 1;
    }
  }

  /** If every philosopher has a fork bound to a neighbour, all forks go to the same side. */
  lemma OneWayRound(w: World, f: Id)
    requires Sound(w) && Shape(w) && NobodyFree(w) && f < |w.forks| && !GoesTo(w, f, f)
    ensures AllGo(w, false)
  {
    hide GoesTo, Sound;
    var n := |w.forks|;
    Upward(w, f, n - 1);
    NotBoth(w, 0);
    assert Right(n, 0) == n - 1;
    forall g | 0 <= g < n ensures GoesTo(w, g, Taker(n, g, false)) {
      Upward(w, 0, g);
      if g > 0 { Upward(w, 0, g - 1); }
    }
  }

  lemma NeverAgain(w: World, more: seq<Event>, p: Id)
    requires Sound(w) && Shape(w) && NoReturn(w) && p < |w.forks|
    ensures Run(w, more).philosophers[p].mode != Eating
  {
    hide Sound, AllGo, React;
    RunNoReturn(w, more, AllGo(w, true));
    assert !EatsBy(|w.forks|, p, Run(w, more).philosophers[p], Run(w, more).philosopherBox[p]);
  }

  lemma SomeoneCan(w: World)
    requires Sound(w) && Shape(w) && !NoReturn(w)
    ensures CanEat(w)
  {
    hide Sound, GoesTo, EatsBy, CanEat;
    var n := |w.forks|;
    if p :| 0 <= p < n && EatsBy(n, p, w.philosophers[p], w.philosopherBox[p]) {
      MailCanEat(w, p);
    } else if p :| 0 <= p < n && !GoesTo(w, p, Neighbour(n, p)) && !GoesTo(w, Right(n, p), Right(n, p)) {
      FreeCanEat(w, p);
    } else {
      var f :| 0 <= f < n && !GoesTo(w, f, Taker(n, f, true));
      OneWayRound(w, f);
    }
  }

  lemma NobodyCan(w: World)
    requires Sound(w) && Shape(w) && NoReturn(w)
    ensures !CanEat(w)
  {
    hide Sound, NoReturn, Run;
    forall more ensures !SomebodyEats(Run(w, more)) {
      forall p | 0 <= p < |w.forks| ensures Run(w, more).philosophers[p].mode != Eating { NeverAgain(w, more, p); }
    }
  }

  /** The point of no return, exactly: from a reachable state nobody eats any more, whatever
      happens, if and only if nobody eats or will by what is in its mailbox, and all forks
      are bound to end up on the same side. */
  lemma NobodyEatsAgainIff(n: nat, events: seq<Event>)
    requires n >= 2
    ensures !CanEat(Run(Init(n), events)) <==> NoReturn(Run(Init(n), events))
  {
    hide Sound, NoReturn, CanEat, Run, Init;
    InitShape(n);
    InitSound(n);
    RunSound(Init(n), events);
    var w := Run(Init(n), events);
    if NoReturn(w) { NobodyCan(w); } else { SomeoneCan(w); }
  }

  lemma InitShape(n: nat)
    requires n >= 2
    ensures Shape(Init(n)) && |Init(n).forks| == n
  {
  }

  // ------------------------------------------------------------------ sooner than one might think

  /** With every fork dirty, and owned by the user on the one side, it may be too late: everyone
      is told to give its fork up before it can get the other. */
  lemma StageFour(w: World)
    requires TableAt(w, 4, 0)
    ensures NoReturn(w)
    ensures forall f :: 0 <= f < |w.forks| ==>
              && !w.forks[f].clean && w.philosophers[f].mode == Hungry
              && !w.philosophers[f].left.has && !w.philosophers[f].right.has
  {
    var n := |w.forks|;
    forall i | 0 <= i < n
      ensures GoesTo(w, i, Neighbour(n, i)) && !EatsBy(n, i, w.philosophers[i], w.philosopherBox[i])
      ensures !w.forks[i].clean && w.philosophers[i].mode == Hungry && !w.philosophers[i].left.has && !w.philosophers[i].right.has
    {
      assert PlaceAt(w, 4, 0, i);
      var box := w.philosopherBox[i];
      assert box == [ReceiveFork(i), GiveUpFork(i)];
      assert box[1] == GiveUpFork(i) && box[1..] == [GiveUpFork(i)];
      assert Told(box, i);
      TakesAndGivesUp(n, i, w.philosophers[i]);
    }
    assert AllGo(w, false);
  }

  lemma TakesAndGivesUp(n: nat, p: Id, s: PhilosopherState)
    requires n >= 2 && s.mode == Hungry && !s.right.has
    ensures !EatsBy(n, p, s, [ReceiveFork(Left(n, p)), GiveUpFork(Left(n, p))])
  {
    var box := [ReceiveFork(Left(n, p)), GiveUpFork(Left(n, p))];
    var took := React(n, p, s, box[0]);
    assert box[1..] == [GiveUpFork(Left(n, p))] && box[1..][1..] == [];
    assert took.mode == Hungry;
    ReactGivesUp(n, p, took, Left(n, p));
    assert !EatsBy(n, p, took, box[1..]);
  }

  lemma {:induction false} ReachStage(w: World, stage: nat, k: nat) returns (events: seq<Event>)
    requires TableAt(w, stage, 0) && stage + k <= 11
    ensures |Run(w, events).forks| == |w.forks| && TableAt(Run(w, events), stage + k, 0)
    decreases k
  {
    if k == 0 {
      events := [];
    } else {
      var first := FinishStage(w, stage, 0);
      var rest := ReachStage(Run(w, first), stage + 1, k - 1);
      RunAppend(w, first, rest);
      events := first + rest;
    }
  }

  lemma StartsAt(n: nat)
    requires n >= 2
    ensures TableAt(Init(n), 0, 0)
  {
    var w := Init(n);
    forall i | 0 <= i < n ensures PlaceAt(w, 0, 0, i) {}
  }

  /** For every table: nobody holds a fork, no fork is clean, and yet nobody will ever eat; later
      in the same run everyone is thinking, and the forks are clean with the other users. */
  lemma TooLateEarly(n: nat) returns (events: seq<Event>, more: seq<Event>)
    requires n >= 2
    ensures var w, w' := Run(Init(n), events), Run(Run(Init(n), events), more);
            && !CanEat(w) && !CanEat(w')
            && (forall p :: 0 <= p < n ==> w.philosophers[p].mode == Hungry && !w.philosophers[p].left.has && !w.forks[p].clean)
            && (forall p :: 0 <= p < n ==> w'.philosophers[p].mode == Thinking && w'.philosophers[p].right.has && w'.forks[p].clean)
  {
    hide CanEat, NoReturn, TableAt, Sound;
    InitShape(n);
    InitSound(n);
    StartsAt(n);
    events := ReachStage(Init(n), 0, 4);
    RunSound(Init(n), events);
    var w := Run(Init(n), events);
    StageFour(w);
    NobodyCan(w);
    more := ReachStage(w, 4, 4);
    RunSound(w, more);
    StageEight(Run(w, more));
    NobodyCan(Run(w, more));
  }

  lemma StageEight(w: World)
    requires TableAt(w, 8, 0)
    ensures NoReturn(w)
    ensures forall p :: 0 <= p < |w.forks| ==> w.philosophers[p].mode == Thinking && w.philosophers[p].right.has && w.forks[p].clean
  {
    var n := |w.forks|;
    forall i | 0 <= i < n
      ensures GoesTo(w, i, Neighbour(n, i)) && !EatsBy(n, i, w.philosophers[i], w.philosopherBox[i])
      ensures w.philosophers[i].mode == Thinking && w.philosophers[i].right.has && w.forks[i].clean
    {
      assert PlaceAt(w, 8, 0, i);
    }
    assert AllGo(w, false);
  }
}
