/**
 The table: a ring of philosophers and forks, each an actor with a FIFO mailbox, and
 every run of them. A scheduled message is one that may be delivered at any later time,
 so no assumption is made on the timers.
 */
module PhilosophersRing {
  import opened Options
  import opened Philosophers

  datatype World = World(
    forks: seq<ForkState>,
    forkBox: seq<seq<ForkMessage>>,
    philosophers: seq<PhilosopherState>,
    philosopherBox: seq<seq<PhilosopherMessage>>,
    timers: seq<seq<PhilosopherMessage>>,
    halfway: seq<Option<Rest>>,
    error: bool)

  /** The rest of a turn that sends to both forks, once the left send is done: the message for
      the right fork, the right hand as the turn leaves it, and what the turn then schedules. */
  datatype Rest = Rest(message: ForkMessage, right: Hand, scheduled: seq<PhilosopherMessage>)

  datatype Event =
    | ForkTurn(f: Id)              // a fork handles the head of its mailbox
    | PhilosopherTurn(p: Id)       // a philosopher handles the head of its mailbox, up to its first send
    | FinishTurn(p: Id)            // the rest of a turn with two sends
    | TimerFires(p: Id, i: nat)    // a scheduled message is delivered
    | AskMetrics(p: Id)            // the simulation asks for metrics

  /** The forks of philosopher `p` at a table of `n`. */
  function Left(n: nat, p: Id): Id { p }
  function Right(n: nat, p: Id): Id requires n > 0 { if p == 0 then n - 1 else p - 1 }

  /** The philosopher whose right fork is `f`. */
  function Neighbour(n: nat, f: Id): Id { if f + 1 == n then 0 else f + 1 }

  function Init(n: nat): World
  {
    World(seq(n, f => ForkState(false, None, [])), seq(n, f => []),
          seq(n, p => PhilosopherState(Thinking, Hand(false, false), Hand(false, false), 0)),
          seq(n, p => [BecomeHungry(0)]), seq(n, p => []), seq(n, p => None), false)
  }

  /** Append each message cast to the mailbox it is cast to. */
  function Deliver(boxes: seq<seq<PhilosopherMessage>>, casts: seq<Cast>): (r: seq<seq<PhilosopherMessage>>)
    ensures |r| == |boxes|
    decreases |casts|
  {
    if casts == [] then boxes
    else
      var c := casts[0];
      Deliver(if c.to < |boxes| then boxes[c.to := boxes[c.to] + [c.message]] else boxes, casts[1..])
  }

  predicate Shape(w: World)
  {
    && |w.forks| >= 2
    && |w.forkBox| == |w.philosophers| == |w.philosopherBox| == |w.timers| == |w.halfway| == |w.forks|
  }

  function ForkStep(w: World, f: Id): World
    requires Shape(w) && f < |w.forks| && w.forkBox[f] != []
  {
    var r := HandleFork(f, w.forks[f], w.forkBox[f][0]);
    w.(forks := w.forks[f := r.state],
       forkBox := w.forkBox[f := w.forkBox[f][1..]],
       philosopherBox := Deliver(w.philosopherBox, r.casts),
       error := w.error || r.error)
  }

  /** The philosopher's handler, from the message to its first send (to the end, if it sends
      at most once). A right fork that is still to be asked for is not marked requested yet. */
  function StartTurn(w: World, p: Id): World
    requires Shape(w) && p < |w.forks| && w.philosopherBox[p] != []
  {
    var left, right := Left(|w.forks|, p), Right(|w.forks|, p);
    var r := HandlePhilosopher(p, left, right, w.philosophers[p], w.philosopherBox[p][0]);
    var w' := w.(philosopherBox := w.philosopherBox[p := w.philosopherBox[p][1..]], error := w.error || r.error);
    if r.toLeft == [] || r.toRight == [] then
      w'.(philosophers := w.philosophers[p := r.state],
          forkBox := w.forkBox[left := w.forkBox[left] + r.toLeft][right := w.forkBox[right] + r.toRight],
          timers := w.timers[p := w.timers[p] + r.scheduled])
    else
      var before := if r.toRight[0].RequestFork? then w.philosophers[p].right else r.state.right;
      w'.(philosophers := w.philosophers[p := r.state.(right := before)],
          forkBox := w.forkBox[left := w.forkBox[left] + r.toLeft],
          halfway := w.halfway[p := Some(Rest(r.toRight[0], r.state.right, r.scheduled))])
  }

  function EndTurn(w: World, p: Id): World
    requires Shape(w) && p < |w.forks| && w.halfway[p].Some?
  {
    var right := Right(|w.forks|, p);
    var rest := w.halfway[p].value;
    w.(philosophers := w.philosophers[p := w.philosophers[p].(right := rest.right)],
       forkBox := w.forkBox[right := w.forkBox[right] + [rest.message]],
       timers := w.timers[p := w.timers[p] + rest.scheduled],
       halfway := w.halfway[p := None])
  }

  function Next(w: World, e: Event): (w': World)
    requires Shape(w)
    ensures Shape(w') && |w'.forks| == |w.forks|
  {
    match e
    case ForkTurn(f) =>
      if f < |w.forks| && w.forkBox[f] != [] then ForkStep(w, f) else w
    case PhilosopherTurn(p) =>
      if p < |w.forks| && w.philosopherBox[p] != [] && w.halfway[p].None? then StartTurn(w, p) else w
    case FinishTurn(p) =>
      if p < |w.forks| && w.halfway[p].Some? then EndTurn(w, p) else w
    case TimerFires(p, i) =>
      if p < |w.forks| && i < |w.timers[p]| then
        w.(timers := w.timers[p := w.timers[p][..i] + w.timers[p][i + 1..]],
           philosopherBox := w.philosopherBox[p := w.philosopherBox[p] + [w.timers[p][i]]])
      else w
    case AskMetrics(p) =>
      if p < |w.forks| then w.(philosopherBox := w.philosopherBox[p := w.philosopherBox[p] + [SendMetrics]]) else w
  }

  function Run(w: World, events: seq<Event>): (w': World)
    requires Shape(w)
    ensures Shape(w') && |w'.forks| == |w.forks|
    decreases |events|
  {
    if events == [] then w else Run(Next(w, events[0]), events[1..])
  }

  // ------------------------------------------------------------------ one fork and its two users

  function Count<T(==)>(s: seq<T>, x: T): nat { multiset(s)[x] }

  /** What one philosopher's end of the protocol looks like to one fork: how often the fork
      is on its way to it, whether it holds the fork, and whether it has asked for it. */
  datatype Side = Side(who: Id, flying: nat, has: bool, requested: bool)

  /** Every message in the mailbox is from a user of the fork. */
  predicate FromUsers(box: seq<ForkMessage>, a: Side, b: Side)
  {
    forall i :: 0 <= i < |box| ==> box[i].who == a.who || box[i].who == b.who
  }

  /** Only the owner uses the fork or puts it down; it does not use the fork after putting it
      down, and it asks again only after putting it down. */
  predicate Ordered(box: seq<ForkMessage>, owner: Option<Id>)
  {
    && (forall i :: 0 <= i < |box| && box[i].UsingFork? ==>
          owner == Some(box[i].who) && PutForkDown(box[i].who) !in box[..i])
    && (forall i :: 0 <= i < |box| && box[i].PutForkDown? ==> owner == Some(box[i].who))
    && (forall i :: 0 <= i < |box| && box[i].RequestFork? && owner == Some(box[i].who) ==>
          PutForkDown(box[i].who) in box[..i])
  }

  function Bit(b: bool): nat { if b then 1 else 0 }

  /** Of the owner's hold: the fork is on its way to the owner, in its hand, or on its way back. */
  predicate OneToken(box: seq<ForkMessage>, owner: Side, other: Side)
  {
    && owner.flying + Bit(owner.has) + Count(box, PutForkDown(owner.who)) == 1
    && (owner.flying == 1 ==> UsingFork(owner.who) !in box)
    && other.flying == 0 && !other.has
  }

  /** A philosopher has asked for the fork exactly if its one request is in the mailbox, or
      in the backlog, or was granted and the fork is on its way. */
  predicate OneRequest(fork: ForkState, box: seq<ForkMessage>, s: Side)
  {
    && Count(box, RequestFork(s.who)) + Count(fork.backlog, RequestFork(s.who)) + s.flying == Bit(s.requested)
    && (s.has ==> !s.requested)
  }

  predicate AtMost<T(==)>(s: seq<T>, x: T) { s == [] || s == [x] }

  predicate ForkInv(fork: ForkState, box: seq<ForkMessage>, a: Side, b: Side)
  {
    && a.who != b.who
    && FromUsers(box, a, b)
    && Ordered(box, fork.ownedBy)
    && OneRequest(fork, box, a)
    && OneRequest(fork, box, b)
    && match fork.ownedBy
       case None => fork.backlog == [] && a.flying == 0 && b.flying == 0 && !a.has && !b.has
       case Some(o) =>
         if o == a.who then OneToken(box, a, b) && AtMost(fork.backlog, RequestFork(b.who))
         else o == b.who && OneToken(box, b, a) && AtMost(fork.backlog, RequestFork(a.who))
  }

  function SideOf(w: World, p: Id, f: Id): Side
    requires Shape(w) && p < |w.forks|
  {
    var hand := if f == Left(|w.forks|, p) then w.philosophers[p].left else w.philosophers[p].right;
    Side(p, Count(w.philosopherBox[p], ReceiveFork(f)), hand.has, hand.requested)
  }

  predicate ForkOk(w: World, f: Id)
    requires Shape(w) && f < |w.forks|
  {
    ForkInv(w.forks[f], w.forkBox[f], SideOf(w, f, f), SideOf(w, Neighbour(|w.forks|, f), f))
  }

  /** A message a philosopher may get: from its own forks, and never asking it to become
      hungry in the round it is in unless it is thinking. */
  predicate Expected(n: nat, p: Id, state: PhilosopherState, m: PhilosopherMessage)
    requires n >= 2
  {
    match m
    case GiveUpFork(f) => f == Left(n, p) || f == Right(n, p)
    case ReceiveFork(f) => f == Left(n, p) || f == Right(n, p)
    case BecomeHungry(c) => c <= state.changes && (c == state.changes ==> state.mode == Thinking)
    case _ => true
  }

  predicate AllExpected(n: nat, p: Id, state: PhilosopherState, s: seq<PhilosopherMessage>)
    requires n >= 2
  {
    forall m :: m in s ==> Expected(n, p, state, m)
  }

  /** Halfway through a turn, the right fork is held and to be used, or is to be asked for. */
  predicate HalfwayOk(n: nat, p: Id, s: PhilosopherState, rest: Rest)
    requires n >= 2
  {
    && match rest.message {
         case UsingFork(who) => who == p && s.right.has && rest.right == s.right
         case RequestFork(who) => who == p && s.right == Hand(false, false) && rest.right == Hand(false, true)
         case PutForkDown(_) => false
       }
    && AllExpected(n, p, s, rest.scheduled)
    && (forall m :: m in rest.scheduled ==> m.StopEating? || m.BecomeHungry?)
  }

  predicate TurnStateOk(n: nat, p: Id, s: PhilosopherState, timers: seq<PhilosopherMessage>, halfway: Option<Rest>)
    requires n >= 2
  {
    && (s.mode == Eating ==> s.left.has && s.right.has)
    && AllExpected(n, p, s, timers)
    && (forall m :: m in timers ==> m.StopEating? || m.BecomeHungry?)
    && (halfway.Some? ==> HalfwayOk(n, p, s, halfway.value))
  }

  predicate PhilosopherOk(w: World, p: Id)
    requires Shape(w) && p < |w.forks|
  {
    && AllExpected(|w.forks|, p, w.philosophers[p], w.philosopherBox[p])
    && TurnStateOk(|w.forks|, p, w.philosophers[p], w.timers[p], w.halfway[p])
  }

  predicate Inv(w: World)
  {
    && Shape(w)
    && !w.error
    && (forall f :: 0 <= f < |w.forks| ==> ForkOk(w, f))
    && (forall p :: 0 <= p < |w.forks| ==> PhilosopherOk(w, p))
  }

  // ------------------------------------------------------------------ local steps of the protocol

  lemma CountTail<T>(s: seq<T>, x: T)
    requires s != []
    ensures Count(s, x) == Bit(s[0] == x) + Count(s[1..], x)
  {
    assert s == [s[0]] + s[1..];
  }

  lemma CountPush<T>(s: seq<T>, y: T, x: T)
    ensures Count(s + [y], x) == Count(s, x) + Bit(y == x)
  {
  }

  /** The mailbox keeps its order when its head is taken and the head was not a return. */
  lemma OrderedTail(box: seq<ForkMessage>, owner: Option<Id>)
    requires box != [] && Ordered(box, owner) && !box[0].PutForkDown?
    ensures Ordered(box[1..], owner)
  {
    var t := box[1..];
    forall i | 0 <= i < |t|
      ensures t[i].UsingFork? ==> owner == Some(t[i].who) && PutForkDown(t[i].who) !in t[..i]
      ensures t[i].PutForkDown? ==> owner == Some(t[i].who)
      ensures t[i].RequestFork? && owner == Some(t[i].who) ==> PutForkDown(t[i].who) in t[..i]
    {
      assert box[i + 1] == t[i];
      assert box[..i + 1] == [box[0]] + t[..i];
    }
  }

  /** After its return, only requests are left in the mailbox. */
  lemma OnlyRequestsFollow(box: seq<ForkMessage>, o: Id)
    requires box != [] && box[0] == PutForkDown(o) && Ordered(box, Some(o)) && Count(box, PutForkDown(o)) == 1
    ensures forall i :: 0 <= i < |box[1..]| ==> box[1..][i].RequestFork?
  {
    CountTail(box, PutForkDown(o));
    forall i | 0 <= i < |box[1..]| ensures box[1..][i].RequestFork? {
      assert box[i + 1] == box[1..][i];
      assert box[0] in box[..i + 1];
      assert box[1..][i] in multiset(box[1..]);
    }
  }

  lemma Symmetric(fork: ForkState, box: seq<ForkMessage>, a: Side, b: Side)
    requires ForkInv(fork, box, a, b)
    ensures ForkInv(fork, box, b, a)
  {
  }

  /** How the message casts of a fork change what it sees of a philosopher. */
  function Receives(s: Side, me: Id, casts: seq<Cast>): Side
  {
    s.(flying := s.flying + Count(casts, Cast(s.who, ReceiveFork(me))))
  }

  predicate TurnOk(me: Id, fork: ForkState, box: seq<ForkMessage>, a: Side, b: Side)
    requires box != []
  {
    var r := HandleFork(me, fork, box[0]);
    && !r.error
    && |r.casts| <= 1
    && (forall c :: c in r.casts ==> c.to in {a.who, b.who} && c.message in {GiveUpFork(me), ReceiveFork(me)})
    && ForkInv(r.state, box[1..], Receives(a, me, r.casts), Receives(b, me, r.casts))
  }

  lemma GrantTurn(me: Id, fork: ForkState, box: seq<ForkMessage>, a: Side, b: Side)
    requires ForkInv(fork, box, a, b) && box != [] && box[0] == RequestFork(a.who) && fork.ownedBy.None?
    ensures TurnOk(me, fork, box, a, b)
  {
    CountTail(box, RequestFork(a.who));
    CountTail(box, RequestFork(b.who));
    forall i | 0 <= i < |box[1..]| ensures box[1..][i] == RequestFork(b.who) {
      assert box[1..][i] == box[i + 1];
      assert box[1..][i] in multiset(box[1..]);
    }
    assert PutForkDown(a.who) !in multiset(box[1..]);
  }

  lemma BacklogTurn(me: Id, fork: ForkState, box: seq<ForkMessage>, a: Side, b: Side)
    requires ForkInv(fork, box, a, b) && box != [] && box[0] == RequestFork(a.who) && fork.ownedBy.Some?
    ensures TurnOk(me, fork, box, a, b)
  {
    assert box[..0] == [];
    assert fork.ownedBy == Some(b.who);
    OrderedTail(box, fork.ownedBy);
    CountTail(box, RequestFork(a.who));
    CountTail(box, RequestFork(b.who));
    CountTail(box, PutForkDown(b.who));
    assert fork.backlog == [];
    assert [] + [box[0]] == [box[0]];
  }

  /** What a fork does with a message when at most one request is waiting. */
  lemma HandleCases(me: Id, fork: ForkState, o: Id, x: Id)
    requires fork.ownedBy == Some(o) && AtMost(fork.backlog, RequestFork(x))
    ensures HandleFork(me, fork, UsingFork(o))
         == ForkResult(fork.(clean := false), if fork.backlog == [] then [] else [Cast(o, GiveUpFork(me))], None, false)
    ensures HandleFork(me, fork, PutForkDown(o))
         == if fork.backlog == [] then ForkResult(ForkState(true, None, []), [], None, false)
            else ForkResult(ForkState(true, Some(x), []), [Cast(x, ReceiveFork(me))], None, false)
  {
    var dirty := fork.(clean := false);
    var freed := ForkState(true, None, fork.backlog);
    assert HandleInternal(me, fork, UsingFork(o)) == ForkResult(dirty, [], None, false);
    assert HandleInternal(me, fork, PutForkDown(o)) == ForkResult(freed, [], None, false);
    if fork.backlog != [] {
      assert fork.backlog[1..] == [];
      assert [RequestFork(x)] + [] == fork.backlog;
      assert HandleBacklog(me, dirty) == ForkResult(dirty, [Cast(o, GiveUpFork(me))], None, false);
      assert HandleBacklog(me, freed) == ForkResult(ForkState(true, Some(x), []), [Cast(x, ReceiveFork(me))], None, false);
    }
  }

  lemma UsingKeeps(fork: ForkState, box: seq<ForkMessage>, a: Side, b: Side)
    requires ForkInv(fork, box, a, b) && box != [] && box[0] == UsingFork(a.who)
    ensures fork.ownedBy == Some(a.who) && AtMost(fork.backlog, RequestFork(b.who))
    ensures ForkInv(fork.(clean := false), box[1..], a, b)
  {
    OrderedTail(box, fork.ownedBy);
    CountTail(box, RequestFork(a.who));
    CountTail(box, RequestFork(b.who));
    CountTail(box, PutForkDown(a.who));
  }

  lemma UsingTurn(me: Id, fork: ForkState, box: seq<ForkMessage>, a: Side, b: Side)
    requires ForkInv(fork, box, a, b) && box != [] && box[0] == UsingFork(a.who)
    ensures TurnOk(me, fork, box, a, b)
  {
    hide ForkInv, HandleFork;
    UsingKeeps(fork, box, a, b);
    HandleCases(me, fork, a.who, b.who);
    var r := HandleFork(me, fork, box[0]);
    assert Receives(a, me, r.casts) == a && Receives(b, me, r.casts) == b;
  }

  /** The fork is back, and is handed on to the one waiting request, if there is one. */
  lemma PutDownKeeps(fork: ForkState, box: seq<ForkMessage>, a: Side, b: Side)
    requires ForkInv(fork, box, a, b) && box != [] && box[0] == PutForkDown(a.who)
    ensures fork.ownedBy == Some(a.who) && AtMost(fork.backlog, RequestFork(b.who)) && a.who != b.who
    ensures fork.backlog == [] ==> ForkInv(ForkState(true, None, []), box[1..], a, b)
    ensures fork.backlog != [] ==> ForkInv(ForkState(true, Some(b.who), []), box[1..], a, b.(flying := b.flying + 1))
  {
    CountTail(box, RequestFork(a.who));
    CountTail(box, RequestFork(b.who));
    CountTail(box, PutForkDown(a.who));
    OnlyRequestsFollow(box, a.who);
    forall i | 0 <= i < |box[1..]| ensures fork.backlog != [] ==> box[1..][i] != RequestFork(b.who) {
      assert box[1..][i] in multiset(box[1..]);
    }
    assert PutForkDown(b.who) !in multiset(box[1..]);
  }

  lemma PutDownTurn(me: Id, fork: ForkState, box: seq<ForkMessage>, a: Side, b: Side)
    requires ForkInv(fork, box, a, b) && box != [] && box[0] == PutForkDown(a.who)
    ensures TurnOk(me, fork, box, a, b)
  {
    hide ForkInv, HandleFork;
    PutDownKeeps(fork, box, a, b);
    HandleCases(me, fork, a.who, b.who);
    var r := HandleFork(me, fork, box[0]);
    assert Receives(a, me, r.casts) == a;
    assert Receives(b, me, r.casts) == if fork.backlog == [] then b else b.(flying := b.flying + 1);
  }

  lemma TurnOf(me: Id, fork: ForkState, box: seq<ForkMessage>, a: Side, b: Side)
    requires ForkInv(fork, box, a, b) && box != [] && box[0].who == a.who
    ensures TurnOk(me, fork, box, a, b)
  {
    hide ForkInv, TurnOk;
    match box[0]
    case RequestFork(_) => if fork.ownedBy.None? { GrantTurn(me, fork, box, a, b); } else { BacklogTurn(me, fork, box, a, b); }
    case UsingFork(_) => UsingTurn(me, fork, box, a, b);
    case PutForkDown(_) => PutDownTurn(me, fork, box, a, b);
  }

  /** A fork's turn, whatever the message: no error, and the protocol goes on. */
  lemma Turn(me: Id, fork: ForkState, box: seq<ForkMessage>, a: Side, b: Side)
    requires ForkInv(fork, box, a, b) && box != []
    ensures TurnOk(me, fork, box, a, b)
  {
    assert box[0].who == a.who || box[0].who == b.who;
    hide ForkInv, HandleFork;
    if box[0].who == a.who {
      TurnOf(me, fork, box, a, b);
    } else {
      Symmetric(fork, box, a, b);
      TurnOf(me, fork, box, b, a);
      var r := HandleFork(me, fork, box[0]);
      Symmetric(r.state, box[1..], Receives(b, me, r.casts), Receives(a, me, r.casts));
    }
  }

  // ------------------------------------------------------------------ local steps of a philosopher

  lemma OrderedPush(box: seq<ForkMessage>, owner: Option<Id>, m: ForkMessage)
    requires Ordered(box, owner)
    requires m.UsingFork? ==> owner == Some(m.who) && PutForkDown(m.who) !in box
    requires m.PutForkDown? ==> owner == Some(m.who)
    requires m.RequestFork? && owner == Some(m.who) ==> PutForkDown(m.who) in box
    ensures Ordered(box + [m], owner)
  {
    var t := box + [m];
    forall i | 0 <= i < |t| ensures t[..i] == box[..i] {
      assert t[..i] == box[..i];
    }
    assert box[..|box|] == box;
  }

  lemma CountIn(box: seq<ForkMessage>, m: ForkMessage)
    ensures Count(box, m) > 0 <==> m in box
  {
    assert m in multiset(box) <==> m in box;
  }

  lemma TakeFork(fork: ForkState, box: seq<ForkMessage>, a: Side, b: Side)
    requires ForkInv(fork, box, a, b) && a.flying > 0
    ensures ForkInv(fork, box, a.(flying := a.flying - 1, has := true, requested := false), b)
  {
    CountIn(box, RequestFork(a.who));
  }

  lemma UseFork(fork: ForkState, box: seq<ForkMessage>, a: Side, b: Side)
    requires ForkInv(fork, box, a, b) && a.has
    ensures ForkInv(fork, box + [UsingFork(a.who)], a, b)
  {
    CountIn(box, PutForkDown(a.who));
    OrderedPush(box, fork.ownedBy, UsingFork(a.who));
    hide Ordered;
  }

  lemma ReturnFork(fork: ForkState, box: seq<ForkMessage>, a: Side, b: Side)
    requires ForkInv(fork, box, a, b) && a.has
    ensures ForkInv(fork, box + [PutForkDown(a.who)], a.(has := false), b)
  {
    OrderedPush(box, fork.ownedBy, PutForkDown(a.who));
    hide Ordered;
  }

  lemma AskForFork(fork: ForkState, box: seq<ForkMessage>, a: Side, b: Side)
    requires ForkInv(fork, box, a, b) && !a.has && !a.requested
    ensures ForkInv(fork, box + [RequestFork(a.who)], a.(requested := true), b)
  {
    CountIn(box, PutForkDown(a.who));
    OrderedPush(box, fork.ownedBy, RequestFork(a.who));
    hide Ordered;
  }

  /** What a philosopher may do to one of its forks in one turn, from `a` to `a'`, sending `sent`. */
  predicate Move(a: Side, a': Side, sent: seq<ForkMessage>)
  {
    || (a' == a && sent == [])
    || (a.flying > 0 && a' == Side(a.who, a.flying - 1, true, false) && AtMost(sent, UsingFork(a.who)))
    || (a.has && a' == a && sent == [UsingFork(a.who)])
    || (a.has && a' == a.(has := false) && sent == [PutForkDown(a.who)])
    || (!a.has && !a.requested && a' == a.(requested := true) && sent == [RequestFork(a.who)])
  }

  lemma MoveKeeps(fork: ForkState, box: seq<ForkMessage>, a: Side, b: Side, a': Side, sent: seq<ForkMessage>)
    requires ForkInv(fork, box, a, b) && Move(a, a', sent)
    ensures ForkInv(fork, box + sent, a', b)
  {
    hide ForkInv;
    if sent == [] { assert box + sent == box; }
    if a.flying > 0 && a' == Side(a.who, a.flying - 1, true, false) && AtMost(sent, UsingFork(a.who)) {
      TakeFork(fork, box, a, b);
      if sent != [] { UseFork(fork, box, a', b); }
    } else if a.has && a' == a && sent == [UsingFork(a.who)] {
      UseFork(fork, box, a, b);
    } else if a.has && a' == a.(has := false) && sent == [PutForkDown(a.who)] {
      ReturnFork(fork, box, a, b);
    } else if sent != [] {
      AskForFork(fork, box, a, b);
    }
  }

  /** The same for the other of the fork's two users. */
  lemma MoveKeepsOther(fork: ForkState, box: seq<ForkMessage>, a: Side, b: Side, b': Side, sent: seq<ForkMessage>)
    requires ForkInv(fork, box, a, b) && Move(b, b', sent)
    ensures ForkInv(fork, box + sent, a, b')
  {
    hide ForkInv, Move;
    Symmetric(fork, box, a, b);
    MoveKeeps(fork, box, b, a, b', sent);
    Symmetric(fork, box + sent, b', a);
  }

  // ------------------------------------------------------------------ the whole table

  lemma DeliverOne(boxes: seq<seq<PhilosopherMessage>>, casts: seq<Cast>)
    requires |casts| <= 1 && forall c :: c in casts ==> c.to < |boxes|
    ensures Deliver(boxes, casts)
         == if casts == [] then boxes else boxes[casts[0].to := boxes[casts[0].to] + [casts[0].message]]
  {
    if casts != [] {
      assert casts[0] in casts;
      assert Deliver(boxes[casts[0].to := boxes[casts[0].to] + [casts[0].message]], casts[1..])
          == boxes[casts[0].to := boxes[casts[0].to] + [casts[0].message]];
    }
  }

  /** What a fork's turn changes of what any fork sees of a philosopher. */
  lemma SidesAfterForkStep(w: World, f: Id, p: Id, g: Id)
    requires Shape(w) && f < |w.forks| && p < |w.forks| && w.forkBox[f] != []
    requires var casts := HandleFork(f, w.forks[f], w.forkBox[f][0]).casts;
             |casts| <= 1 && forall c :: c in casts ==> c.to < |w.forks| && c.message in {GiveUpFork(f), ReceiveFork(f)}
    ensures SideOf(ForkStep(w, f), p, g)
         == if g == f then Receives(SideOf(w, p, f), f, HandleFork(f, w.forks[f], w.forkBox[f][0]).casts) else SideOf(w, p, g)
  {
    hide HandleFork, Deliver;
    var casts := HandleFork(f, w.forks[f], w.forkBox[f][0]).casts;
    DeliverOne(w.philosopherBox, casts);
    if casts != [] {
      assert casts == [casts[0]];
      CountPush(w.philosopherBox[casts[0].to], casts[0].message, ReceiveFork(g));
    }
  }

  lemma ForkStepTurn(w: World, f: Id)
    requires Inv(w) && f < |w.forks| && w.forkBox[f] != []
    ensures TurnOk(f, w.forks[f], w.forkBox[f], SideOf(w, f, f), SideOf(w, Neighbour(|w.forks|, f), f))
  {
    hide TurnOk, ForkInv;
    assert ForkOk(w, f);
    Turn(f, w.forks[f], w.forkBox[f], SideOf(w, f, f), SideOf(w, Neighbour(|w.forks|, f), f));
  }

  lemma ForkStepForks(w: World, f: Id, g: Id)
    requires Inv(w) && f < |w.forks| && w.forkBox[f] != [] && g < |w.forks|
    ensures ForkOk(ForkStep(w, f), g)
  {
    ForkStepTurn(w, f);
    hide HandleFork, ForkInv, Deliver, PhilosopherOk, SideOf;
    assert ForkOk(w, g);
    SidesAfterForkStep(w, f, g, g);
    SidesAfterForkStep(w, f, Neighbour(|w.forks|, g), g);
  }

  lemma ForkStepPhilosophers(w: World, f: Id, p: Id)
    requires Inv(w) && f < |w.forks| && w.forkBox[f] != [] && p < |w.forks|
    ensures PhilosopherOk(ForkStep(w, f), p)
  {
    hide HandleFork, ForkInv, ForkOk, TurnStateOk;
    ForkStepTurn(w, f);
    assert PhilosopherOk(w, p);
    DeliverOne(w.philosopherBox, HandleFork(f, w.forks[f], w.forkBox[f][0]).casts);
  }

  lemma ForkStepInv(w: World, f: Id)
    requires Inv(w) && f < |w.forks| && w.forkBox[f] != []
    ensures Inv(ForkStep(w, f))
  {
    hide ForkInv, HandleFork, Deliver, ForkOk, PhilosopherOk;
    ForkStepTurn(w, f);
    forall g | 0 <= g < |w.forks| ensures ForkOk(ForkStep(w, f), g) && PhilosopherOk(ForkStep(w, f), g) {
      ForkStepForks(w, f, g);
      ForkStepPhilosophers(w, f, g);
    }
  }

  /** What a turn sends to the right fork before it is halfway, and the right hand then. */
  function SentRight(r: PhilosopherResult): seq<ForkMessage> { if r.toLeft == [] then r.toRight else [] }
  function RightHalfway(state: PhilosopherState, r: PhilosopherResult): Hand
  {
    if r.toLeft != [] && r.toRight != [] && r.toRight[0].RequestFork? then state.right else r.state.right
  }

  predicate HandMoves(p: Id, flying: nat, before: Hand, received: bool, after: Hand, sent: seq<ForkMessage>)
    requires received ==> flying > 0
  {
    Move(Side(p, flying, before.has, before.requested), Side(p, flying - Bit(received), after.has, after.requested), sent)
  }

  /** In its turn a philosopher makes one move at each of its forks, and no error. */
  lemma HandlerMoves(n: nat, p: Id, state: PhilosopherState, m: PhilosopherMessage, flyingLeft: nat, flyingRight: nat)
    requires n >= 2 && Expected(n, p, state, m)
    requires m == ReceiveFork(Left(n, p)) ==> flyingLeft > 0
    requires m == ReceiveFork(Right(n, p)) ==> flyingRight > 0
    ensures var r := HandlePhilosopher(p, Left(n, p), Right(n, p), state, m);
            && !r.error
            && HandMoves(p, flyingLeft, state.left, m == ReceiveFork(Left(n, p)), r.state.left, r.toLeft)
            && HandMoves(p, flyingRight, state.right, m == ReceiveFork(Right(n, p)), RightHalfway(state, r), SentRight(r))
  {
  }

  /** What a turn leaves behind for the philosopher itself. */
  lemma HandlerLeaves(n: nat, p: Id, state: PhilosopherState, m: PhilosopherMessage)
    requires n >= 2 && Expected(n, p, state, m) && (state.mode == Eating ==> state.left.has && state.right.has)
    ensures var r := HandlePhilosopher(p, Left(n, p), Right(n, p), state, m);
            && (r.state.mode == Eating ==> r.state.left.has && r.state.right.has)
            && r.state.changes >= state.changes
            && (r.state.changes == state.changes ==> r.state.mode == state.mode)
            && AllExpected(n, p, r.state, r.scheduled)
            && (forall x :: x in r.scheduled ==> x.StopEating? || x.BecomeHungry?)
            && (r.toLeft != [] && r.toRight != [] ==>
                  && |r.toRight| == 1
                  && HalfwayOk(n, p, r.state.(right := RightHalfway(state, r)), Rest(r.toRight[0], r.state.right, r.scheduled))
                  && (r.state.mode == Eating ==> RightHalfway(state, r) == r.state.right))
  {
  }

  lemma StartTurnMoves(w: World, p: Id)
    requires Shape(w) && p < |w.forks| && w.philosopherBox[p] != [] && PhilosopherOk(w, p)
    ensures var n := |w.forks|;
            var w' := StartTurn(w, p);
            var r := HandlePhilosopher(p, Left(n, p), Right(n, p), w.philosophers[p], w.philosopherBox[p][0]);
            && !r.error
            && Move(SideOf(w, p, Left(n, p)), SideOf(w', p, Left(n, p)), r.toLeft)
            && Move(SideOf(w, p, Right(n, p)), SideOf(w', p, Right(n, p)), SentRight(r))
  {
    hide HandlePhilosopher, Move, TurnStateOk;
    var n := |w.forks|;
    var state, m := w.philosophers[p], w.philosopherBox[p][0];
    var box := w.philosopherBox[p];
    CountTail(box, ReceiveFork(Left(n, p)));
    CountTail(box, ReceiveFork(Right(n, p)));
    assert m in box;
    HandlerMoves(n, p, state, m, Count(box, ReceiveFork(Left(n, p))), Count(box, ReceiveFork(Right(n, p))));
    var r := HandlePhilosopher(p, Left(n, p), Right(n, p), state, m);
    assert StartTurn(w, p).philosophers[p] == r.state.(right := RightHalfway(state, r));
  }

  /** The philosopher itself keeps its part of the protocol. */
  lemma StartTurnKeeps(w: World, p: Id)
    requires Shape(w) && p < |w.forks| && w.philosopherBox[p] != [] && PhilosopherOk(w, p) && w.halfway[p].None?
    ensures PhilosopherOk(StartTurn(w, p), p)
  {
    hide HandlePhilosopher, HalfwayOk;
    var n := |w.forks|;
    var state, m := w.philosophers[p], w.philosopherBox[p][0];
    assert m in w.philosopherBox[p];
    HandlerLeaves(n, p, state, m);
    var r := HandlePhilosopher(p, Left(n, p), Right(n, p), state, m);
    var w' := StartTurn(w, p);
    assert w'.philosophers[p] == r.state.(right := RightHalfway(state, r));
    assert AllExpected(n, p, w'.philosophers[p], w.philosopherBox[p]);
    assert AllExpected(n, p, w'.philosophers[p], w.timers[p]);
  }

  /** Every fork sees at most a move of one of its users. */
  lemma StartTurnForks(w: World, p: Id, f: Id)
    requires Inv(w) && p < |w.forks| && w.philosopherBox[p] != [] && w.halfway[p].None? && f < |w.forks|
    ensures ForkOk(StartTurn(w, p), f)
  {
    hide HandlePhilosopher, ForkInv, Move, PhilosopherOk;
    var n := |w.forks|;
    var w' := StartTurn(w, p);
    var r := HandlePhilosopher(p, Left(n, p), Right(n, p), w.philosophers[p], w.philosopherBox[p][0]);
    assert PhilosopherOk(w, p) && ForkOk(w, f);
    StartTurnMoves(w, p);
    var a, b := SideOf(w, f, f), SideOf(w, Neighbour(n, f), f);
    if f == Left(n, p) {
      MoveKeeps(w.forks[f], w.forkBox[f], a, b, SideOf(w', p, f), r.toLeft);
    } else if f == Right(n, p) {
      MoveKeepsOther(w.forks[f], w.forkBox[f], a, b, SideOf(w', p, f), SentRight(r));
      assert w'.forkBox[f] == w.forkBox[f] + SentRight(r);
    }
  }

  lemma StartTurnOthers(w: World, p: Id, q: Id)
    requires Inv(w) && p < |w.forks| && w.philosopherBox[p] != [] && q < |w.forks| && q != p
    ensures PhilosopherOk(StartTurn(w, p), q)
  {
    hide HandlePhilosopher, ForkOk;
    assert PhilosopherOk(w, q);
  }

  lemma StartTurnShape(w: World, p: Id)
    requires Inv(w) && p < |w.forks| && w.philosopherBox[p] != []
    ensures var w' := StartTurn(w, p);
            Shape(w') && |w'.forks| == |w.forks| && !w'.error
  {
    hide HandlePhilosopher, ForkOk, Move;
    StartTurnMoves(w, p);
  }

  lemma StartTurnInv(w: World, p: Id)
    requires Inv(w) && p < |w.forks| && w.philosopherBox[p] != [] && w.halfway[p].None?
    ensures Inv(StartTurn(w, p))
  {
    hide StartTurn, ForkOk, PhilosopherOk;
    var w' := StartTurn(w, p);
    StartTurnShape(w, p);
    forall f | 0 <= f < |w.forks| ensures ForkOk(w', f) {
      StartTurnForks(w, p, f);
    }
    forall q | 0 <= q < |w.forks| ensures PhilosopherOk(w', q) {
      if q == p { StartTurnKeeps(w, p); } else { StartTurnOthers(w, p, q); }
    }
  }

  lemma EndTurnInv(w: World, p: Id)
    requires Inv(w) && p < |w.forks| && w.halfway[p].Some?
    ensures Inv(EndTurn(w, p))
  {
    var n := |w.forks|;
    var w' := EndTurn(w, p);
    var right := Right(n, p);
    hide ForkInv;
    assert PhilosopherOk(w, p);
    assert Move(SideOf(w, p, right), SideOf(w', p, right), [w.halfway[p].value.message]);
    forall f | 0 <= f < n ensures ForkOk(w', f) {
      hide Move, PhilosopherOk;
      assert ForkOk(w, f);
      if f == right {
        MoveKeepsOther(w.forks[f], w.forkBox[f], SideOf(w, f, f), SideOf(w, p, f), SideOf(w', p, f), [w.halfway[p].value.message]);
      }
    }
    forall q | 0 <= q < n ensures PhilosopherOk(w', q) {
      assert PhilosopherOk(w, q);
    }
  }

  lemma DeliveryInv(w: World, w': World, p: Id, m: PhilosopherMessage)
    requires Inv(w) && p < |w.forks| && !m.ReceiveFork? && Expected(|w.forks|, p, w.philosophers[p], m)
    requires w' == w.(timers := w'.timers, philosopherBox := w.philosopherBox[p := w.philosopherBox[p] + [m]])
    requires |w'.timers| == |w.timers|
    requires forall q, x :: 0 <= q < |w.forks| && x in w'.timers[q] ==> x in w.timers[q]
    ensures Inv(w')
  {
    var n := |w.forks|;
    forall q, f | 0 <= q < n ensures SideOf(w', q, f) == SideOf(w, q, f) {
      CountPush(w.philosopherBox[p], m, ReceiveFork(f));
    }
    forall f | 0 <= f < n ensures ForkOk(w', f) {
      hide ForkInv, SideOf;
      assert ForkOk(w, f);
    }
    forall q | 0 <= q < n ensures PhilosopherOk(w', q) {
      assert PhilosopherOk(w, q);
    }
  }

  lemma NextInv(w: World, e: Event)
    requires Inv(w)
    ensures Inv(Next(w, e))
  {
    hide ForkOk, ForkStep, StartTurn, EndTurn;
    match e
    case ForkTurn(f) => if f < |w.forks| && w.forkBox[f] != [] { ForkStepInv(w, f); }
    case PhilosopherTurn(p) => if p < |w.forks| && w.philosopherBox[p] != [] && w.halfway[p].None? { StartTurnInv(w, p); }
    case FinishTurn(p) => if p < |w.forks| && w.halfway[p].Some? { EndTurnInv(w, p); }
    case TimerFires(p, i) =>
      if p < |w.forks| && i < |w.timers[p]| {
        assert PhilosopherOk(w, p) && w.timers[p][i] in w.timers[p];
        DeliveryInv(w, Next(w, e), p, w.timers[p][i]);
      }
    case AskMetrics(p) =>
      if p < |w.forks| { DeliveryInv(w, Next(w, e), p, SendMetrics); }
  }

  lemma InitInv(n: nat)
    requires n >= 2
    ensures Inv(Init(n))
  {
    var w := Init(n);
    forall f | 0 <= f < n ensures ForkOk(w, f) {
      assert SideOf(w, f, f) == Side(f, 0, false, false);
      assert SideOf(w, Neighbour(n, f), f) == Side(Neighbour(n, f), 0, false, false);
    }
  }

  lemma {:induction false} RunInv(w: World, events: seq<Event>)
    requires Inv(w)
    ensures Inv(Run(w, events))
    decreases |events|
  {
    if events != [] {
      NextInv(w, events[0]);
      RunInv(Next(w, events[0]), events[1..]);
    }
  }
}
