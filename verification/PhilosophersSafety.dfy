/**
 What the protocol of the table guarantees in every reachable state, for every size of the
 table, every interleaving of the actors and every timing of the scheduled messages.
 */
module PhilosophersSafety {
  import opened Options
  import opened Philosophers
  import opened PhilosophersRing

  predicate Holds(w: World, p: Id, f: Id)
    requires Shape(w) && p < |w.forks|
  {
    || (f == Left(|w.forks|, p) && w.philosophers[p].left.has)
    || (f == Right(|w.forks|, p) && w.philosophers[p].right.has)
  }

  /** How often fork `f` is in the hand of, or on its way to, one of the first `k` philosophers. */
  function InHands(w: World, f: Id, k: nat): nat
    requires Shape(w) && k <= |w.forks|
  {
    if k == 0 then 0
    else InHands(w, f, k - 1) + Bit(Holds(w, k - 1, f)) + Count(w.philosopherBox[k - 1], ReceiveFork(f))
  }

  /** How often a fork is on its way back, whoever sent it. */
  function Returns(box: seq<ForkMessage>): nat
  {
    if box == [] then 0 else Bit(box[0].PutForkDown?) + Returns(box[1..])
  }

  lemma {:induction false} ReturnsAreOwners(box: seq<ForkMessage>, o: Id)
    requires forall i :: 0 <= i < |box| && box[i].PutForkDown? ==> box[i].who == o
    ensures Returns(box) == Count(box, PutForkDown(o))
  {
    if box != [] {
      CountTail(box, PutForkDown(o));
      ReturnsAreOwners(box[1..], o);
    }
  }

  lemma {:induction false} NoReturns(box: seq<ForkMessage>)
    requires forall i :: 0 <= i < |box| ==> !box[i].PutForkDown?
    ensures Returns(box) == 0
  {
    if box != [] { NoReturns(box[1..]); }
  }

  /** A fork is never with, or under way to, a philosopher it does not lie next to. */
  lemma StrangersHaveNothing(w: World, f: Id, p: Id)
    requires Inv(w) && f < |w.forks| && p < |w.forks| && p != f && p != Neighbour(|w.forks|, f)
    ensures !Holds(w, p, f) && Count(w.philosopherBox[p], ReceiveFork(f)) == 0
  {
    assert PhilosopherOk(w, p);
    assert ReceiveFork(f) in multiset(w.philosopherBox[p]) <==> ReceiveFork(f) in w.philosopherBox[p];
  }

  function Share(s: Side): nat { s.flying + Bit(s.has) }

  lemma {:induction false} InHandsOfUsers(w: World, f: Id, k: nat)
    requires Inv(w) && f < |w.forks| && k <= |w.forks|
    ensures var b := Neighbour(|w.forks|, f);
            InHands(w, f, k) == (if f < k then Share(SideOf(w, f, f)) else 0) + (if b < k then Share(SideOf(w, b, f)) else 0)
  {
    assert Shape(w);
    hide Inv;
    if k > 0 {
      InHandsOfUsers(w, f, k - 1);
      if k - 1 != f && k - 1 != Neighbour(|w.forks|, f) { StrangersHaveNothing(w, f, k - 1); }
    }
  }

  /** In every reachable state each fork is in exactly one place: on the table, on its way to
      a philosopher, in a philosopher's hand, or on its way back. */
  lemma ForkIsInOnePlace(n: nat, events: seq<Event>, f: Id)
    requires n >= 2 && f < n
    ensures var w := Run(Init(n), events);
            Bit(w.forks[f].ownedBy.None?) + InHands(w, f, n) + Returns(w.forkBox[f]) == 1
  {
    InitInv(n);
    RunInv(Init(n), events);
    var w := Run(Init(n), events);
    InHandsOfUsers(w, f, n);
    assert ForkOk(w, f);
    match w.forks[f].ownedBy
    case None => NoReturns(w.forkBox[f]);
    case Some(o) => ReturnsAreOwners(w.forkBox[f], o);
  }

  /** No two philosophers that share a fork ever eat at the same time. */
  lemma NeighboursNeverEatTogether(n: nat, events: seq<Event>, p: Id, q: Id, f: Id)
    requires n >= 2 && p < n && q < n && p != q
    requires f == Left(n, p) || f == Right(n, p)
    requires f == Left(n, q) || f == Right(n, q)
    ensures var w := Run(Init(n), events);
            !(w.philosophers[p].mode == Eating && w.philosophers[q].mode == Eating)
  {
    hide Inv;
    InitInv(n);
    RunInv(Init(n), events);
    SharedForkExcludes(Run(Init(n), events), p, q, f);
  }

  lemma SharedForkExcludes(w: World, p: Id, q: Id, f: Id)
    requires Inv(w) && p < |w.forks| && q < |w.forks| && p != q
    requires f == Left(|w.forks|, p) || f == Right(|w.forks|, p)
    requires f == Left(|w.forks|, q) || f == Right(|w.forks|, q)
    ensures !(w.philosophers[p].mode == Eating && w.philosophers[q].mode == Eating)
  {
    assert ForkOk(w, f) && PhilosopherOk(w, p) && PhilosopherOk(w, q);
  }

  /** An eating philosopher holds both of its forks. */
  lemma EatingTakesBothForks(n: nat, events: seq<Event>, p: Id)
    requires n >= 2 && p < n && Run(Init(n), events).philosophers[p].mode == Eating
    ensures var w := Run(Init(n), events);
            Holds(w, p, Left(n, p)) && Holds(w, p, Right(n, p))
  {
    InitInv(n);
    RunInv(Init(n), events);
    assert PhilosopherOk(Run(Init(n), events), p);
  }

  /** No branch that logs an error is ever taken. */
  lemma NoErrorBranch(n: nat, events: seq<Event>)
    requires n >= 2
    ensures !Run(Init(n), events).error
  {
    InitInv(n);
    RunInv(Init(n), events);
  }

  /** A philosopher that has asked for a fork has exactly one request for it outstanding: in the
      fork's mailbox, in its backlog, or granted with the fork on its way. One that has not asked
      has none, and one that holds the fork has not asked. */
  lemma OneRequestOutstanding(n: nat, events: seq<Event>, p: Id, f: Id)
    requires n >= 2 && p < n
    requires f == Left(n, p) || f == Right(n, p)
    ensures var w := Run(Init(n), events);
            var hand := if f == Left(n, p) then w.philosophers[p].left else w.philosophers[p].right;
            && Count(w.forkBox[f], RequestFork(p)) + Count(w.forks[f].backlog, RequestFork(p))
               + Count(w.philosopherBox[p], ReceiveFork(f)) == Bit(hand.requested)
            && (hand.has ==> !hand.requested)
  {
    InitInv(n);
    RunInv(Init(n), events);
    assert ForkOk(Run(Init(n), events), f);
  }

  /** At most one request waits at a fork, of the philosopher that does not own it, and none
      waits at a fork on the table. */
  lemma BacklogIsTheOtherUser(n: nat, events: seq<Event>, f: Id)
    requires n >= 2 && f < n
    ensures var w := Run(Init(n), events);
            var fork := w.forks[f];
            && |fork.backlog| <= 1
            && (fork.backlog != [] ==>
                  && fork.ownedBy.Some?
                  && {fork.ownedBy.value, fork.backlog[0].who} == {f, Neighbour(n, f)}
                  && fork.backlog[0].RequestFork?)
  {
    InitInv(n);
    RunInv(Init(n), events);
    var w := Run(Init(n), events);
    assert ForkOk(w, f);
    var fork := w.forks[f];
    if fork.backlog != [] {
      assert fork.ownedBy.value != fork.backlog[0].who;
    }
  }

  /** A fork is told that it is used only by its owner, and before it is put down. */
  lemma UsedOnlyByOwner(n: nat, events: seq<Event>, f: Id, i: nat)
    requires n >= 2 && f < n && i < |Run(Init(n), events).forkBox[f]| && Run(Init(n), events).forkBox[f][i].UsingFork?
    ensures var w := Run(Init(n), events);
            var who := w.forkBox[f][i].who;
            w.forks[f].ownedBy == Some(who) && PutForkDown(who) !in w.forkBox[f][..i]
  {
    InitInv(n);
    RunInv(Init(n), events);
    assert ForkOk(Run(Init(n), events), f);
  }
}
