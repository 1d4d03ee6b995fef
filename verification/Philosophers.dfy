/**
 The dining philosophers example: the fork and philosopher message handlers.
 */
module Philosophers {
  import opened Options

  type Id = nat

  datatype ForkMessage = RequestFork(who: Id) | UsingFork(who: Id) | PutForkDown(who: Id)

  datatype PhilosopherMessage =
    | StopEating(stateId: nat)
    | BecomeHungry(stateId: nat)
    | GiveUpFork(fork: Id)
    | ReceiveFork(fork: Id)
    | SendMetrics

  // ------------------------------------------------------------------ forks

  datatype ForkState = ForkState(clean: bool, ownedBy: Option<Id>, backlog: seq<ForkMessage>)

  /** A message cast to a philosopher. */
  datatype Cast = Cast(to: Id, message: PhilosopherMessage)

  /** The new state, the messages cast, the message handed back to be backlogged, and
      whether a branch was taken that the source logs as an error. */
  datatype ForkResult = ForkResult(state: ForkState, casts: seq<Cast>, unhandled: Option<ForkMessage>, error: bool)

  function HandleInternal(me: Id, state: ForkState, message: ForkMessage): ForkResult
  {
    match message
    case RequestFork(who) =>
      if state.ownedBy.Some? then
        ForkResult(state, if state.clean then [] else [Cast(state.ownedBy.value, GiveUpFork(me))], Some(message), false)
      else
        ForkResult(state.(ownedBy := Some(who)), [Cast(who, ReceiveFork(me))], None, false)
    case UsingFork(who) =>
      if state.ownedBy == Some(who) then ForkResult(state.(clean := false), [], None, false)
      else ForkResult(state, [], None, true)
    case PutForkDown(who) =>
      if state.ownedBy == Some(who) then ForkResult(state.(ownedBy := None, clean := true), [], None, false)
      else ForkResult(state, [], None, true)
  }

  /** What a handler did in all, when `rest` happened after `first`. */
  function After(first: ForkResult, rest: ForkResult): ForkResult
  {
    rest.(casts := first.casts + rest.casts, error := first.error || rest.error)
  }

  /** The loop over the backlog: handle from the front until one is handed back. */
  function HandleBacklog(me: Id, state: ForkState): ForkResult
    decreases |state.backlog|
  {
    if state.backlog == [] then ForkResult(state, [], None, false)
    else
      var r := HandleInternal(me, state.(backlog := state.backlog[1..]), state.backlog[0]);
      if r.unhandled.Some? then
        r.(state := r.state.(backlog := [r.unhandled.value] + r.state.backlog), unhandled := None)
      else
        After(r, HandleBacklog(me, r.state))
  }

  function HandleFork(me: Id, state: ForkState, message: ForkMessage): ForkResult
  {
    var r := HandleInternal(me, state, message);
    if r.unhandled.Some? then
      r.(state := r.state.(backlog := r.state.backlog + [r.unhandled.value]), unhandled := None)
    else
      After(r, HandleBacklog(me, r.state))
  }

  /** The fork actor, with its handlers run in place. */
  class Fork {
    const me: Id
    var clean: bool
    var ownedBy: Option<Id>
    var backlog: seq<ForkMessage>

    function State(): ForkState
      reads this
    {
      ForkState(clean, ownedBy, backlog)
    }

    constructor (me: Id)
      ensures this.me == me && State() == ForkState(false, None, [])
    {
      this.me := me;
      clean, ownedBy, backlog := false, None, [];
    }

    method HandleOne(message: ForkMessage) returns (casts: seq<Cast>, unhandled: Option<ForkMessage>, error: bool)
      modifies this`clean, this`ownedBy
      ensures ForkResult(State(), casts, unhandled, error) == HandleInternal(me, old(State()), message)
    {
      casts, unhandled, error := [], None, false;
      match message
      case RequestFork(who) =>
        match ownedBy {
          case Some(owner) =>
            if !clean {
              casts := [Cast(owner, GiveUpFork(me))];
            }
            unhandled := Some(message);
          case None =>
            casts := [Cast(who, ReceiveFork(me))];
            ownedBy := Some(who);
        }
      case UsingFork(who) =>
        if ownedBy == Some(who) {
          clean := false;
        } else {
          error := true;
        }
      case PutForkDown(who) =>
        if ownedBy == Some(who) {
          ownedBy := None;
          clean := true;
        } else {
          error := true;
        }
    }

    method DrainBacklog() returns (casts: seq<Cast>, error: bool)
      modifies this
      ensures ForkResult(State(), casts, None, error) == HandleBacklog(me, old(State()))
    {
      hide HandleInternal;
      var maybeUnhandled: Option<ForkMessage> := None;
      casts, error := [], false;
      while backlog != [] && maybeUnhandled.None?
        invariant HandleBacklog(me, old(State())) == After(ForkResult(State(), casts, None, error), Remaining(maybeUnhandled))
        decreases |backlog|, maybeUnhandled.None?
      {
        var head := backlog[0];
        ghost var rest := HandleBacklog(me, State());
        backlog := backlog[1..];
        var more, failed;
        more, maybeUnhandled, failed := HandleOne(head);
        assert rest.casts == more + Remaining(maybeUnhandled).casts;
        assert casts + rest.casts == casts + more + Remaining(maybeUnhandled).casts;
        casts, error := casts + more, error || failed;
      }
      assert casts + [] == casts;
      if maybeUnhandled.Some? {
        backlog := [maybeUnhandled.value] + backlog;
      }
    }

    /** What is left to do once the loop has stopped at `unhandled`, or goes on. */
    ghost function Remaining(unhandled: Option<ForkMessage>): ForkResult
      reads this
    {
      if unhandled.Some? then ForkResult(State().(backlog := [unhandled.value] + backlog), [], None, false)
      else HandleBacklog(me, State())
    }

    method Handle(message: ForkMessage) returns (casts: seq<Cast>, error: bool)
      modifies this
      ensures ForkResult(State(), casts, None, error) == HandleFork(me, old(State()), message)
    {
      var maybeUnhandled;
      casts, maybeUnhandled, error := HandleOne(message);
      if maybeUnhandled.Some? {
        backlog := backlog + [maybeUnhandled.value];
      } else {
        var more, failed := DrainBacklog();
        casts, error := casts + more, error || failed;
      }
    }
  }

  // ------------------------------------------------------------------ philosophers

  datatype Mode = Thinking | Hungry | Eating

  datatype Hand = Hand(has: bool, requested: bool)

  datatype PhilosopherState = PhilosopherState(mode: Mode, left: Hand, right: Hand, changes: nat)

  /** The new state, the messages cast to the left and to the right fork, the messages
      scheduled to the philosopher itself, and whether an error branch was taken. */
  datatype PhilosopherResult = PhilosopherResult(
    state: PhilosopherState, toLeft: seq<ForkMessage>, toRight: seq<ForkMessage>, scheduled: seq<PhilosopherMessage>, error: bool)

  function BeginThinking(state: PhilosopherState, toLeft: seq<ForkMessage>, toRight: seq<ForkMessage>, error: bool): PhilosopherResult
  {
    PhilosopherResult(state.(mode := Thinking, changes := state.changes + 1), toLeft, toRight,
                      [BecomeHungry(state.changes + 1)], error)
  }

  function BeginEating(me: Id, state: PhilosopherState): PhilosopherResult
  {
    PhilosopherResult(state.(mode := Eating, changes := state.changes + 1), [UsingFork(me)], [UsingFork(me)],
                      [StopEating(state.changes + 1)], false)
  }

  /** A hand asks for its fork if it neither has it nor has asked. */
  function Ask(hand: Hand): Hand { if !hand.has && !hand.requested then hand.(requested := true) else hand }

  function Asking(me: Id, hand: Hand): seq<ForkMessage>
  {
    if !hand.has && !hand.requested then [RequestFork(me)] else []
  }

  /** The philosopher is `me`, and its forks are `leftFork` and `rightFork`. */
  function HandlePhilosopher(me: Id, leftFork: Id, rightFork: Id, state: PhilosopherState, message: PhilosopherMessage): PhilosopherResult
  {
    var same := PhilosopherResult(state, [], [], [], false);
    match message
    case SendMetrics => same
    case StopEating(id) =>
      if state.changes == id && state.mode == Eating then BeginThinking(state, [], [], false) else same
    case BecomeHungry(id) =>
      if state.changes != id then same
      else if state.left.has && state.right.has then BeginEating(me, state)
      else if state.mode == Thinking then
        PhilosopherResult(PhilosopherState(Hungry, Ask(state.left), Ask(state.right), state.changes + 1),
                          Asking(me, state.left), Asking(me, state.right), [], false)
      else same.(error := true)
    case GiveUpFork(fork) =>
      var left := fork == leftFork && state.left.has;
      var right := fork != leftFork && fork == rightFork && state.right.has;
      var error := fork != leftFork && fork != rightFork;
      var state' := if left then state.(left := state.left.(has := false))
                    else if right then state.(right := state.right.(has := false)) else state;
      var toLeft := if left then [PutForkDown(me)] else [];
      var toRight := if right then [PutForkDown(me)] else [];
      if state.mode == Thinking then PhilosopherResult(state', toLeft, toRight, [], error)
      else BeginThinking(state', toLeft, toRight, error)
    case ReceiveFork(fork) =>
      var state' := if fork == leftFork then state.(left := Hand(true, false))
                    else if fork == rightFork then state.(right := Hand(true, false)) else state;
      var error := fork != leftFork && fork != rightFork;
      if state'.left.has && state'.right.has then BeginEating(me, state').(error := error)
      else PhilosopherResult(state', [], [], [], error)
  }

  /** The philosopher actor, with its handlers run in place. */
  class Philosopher {
    const me: Id
    const leftFork: Id
    const rightFork: Id
    var mode: Mode
    var left: Hand
    var right: Hand
    var changes: nat

    function State(): PhilosopherState
      reads this
    {
      PhilosopherState(mode, left, right, changes)
    }

    constructor (me: Id, leftFork: Id, rightFork: Id)
      ensures this.me == me && this.leftFork == leftFork && this.rightFork == rightFork
      ensures State() == PhilosopherState(Thinking, Hand(false, false), Hand(false, false), 0)
    {
      this.me, this.leftFork, this.rightFork := me, leftFork, rightFork;
      mode, left, right, changes := Thinking, Hand(false, false), Hand(false, false), 0;
    }

    method StartThinking() returns (scheduled: seq<PhilosopherMessage>)
      modifies this`mode, this`changes
      ensures mode == Thinking && changes == old(changes) + 1 && scheduled == [BecomeHungry(changes)]
    {
      mode := Thinking;
      changes := changes + 1;
      scheduled := [BecomeHungry(changes)];
    }

    method StartEating() returns (toLeft: seq<ForkMessage>, toRight: seq<ForkMessage>, scheduled: seq<PhilosopherMessage>)
      modifies this`mode, this`changes
      ensures PhilosopherResult(State(), toLeft, toRight, scheduled, false) == BeginEating(me, old(State()))
    {
      mode := Eating;
      changes := changes + 1;
      toLeft, toRight := [UsingFork(me)], [UsingFork(me)];
      scheduled := [StopEating(changes)];
    }

    method RequestMissingForks() returns (toLeft: seq<ForkMessage>, toRight: seq<ForkMessage>)
      modifies this`left, this`right
      ensures left == Ask(old(left)) && right == Ask(old(right))
      ensures toLeft == Asking(me, old(left)) && toRight == Asking(me, old(right))
    {
      toLeft, toRight := [], [];
      if !left.has && !left.requested {
        left := left.(requested := true);
        toLeft := [RequestFork(me)];
      }
      if !right.has && !right.requested {
        right := right.(requested := true);
        toRight := [RequestFork(me)];
      }
    }

    method Handle(message: PhilosopherMessage) returns (toLeft: seq<ForkMessage>, toRight: seq<ForkMessage>,
                                                        scheduled: seq<PhilosopherMessage>, error: bool)
      modifies this
      ensures PhilosopherResult(State(), toLeft, toRight, scheduled, error)
           == HandlePhilosopher(me, leftFork, rightFork, old(State()), message)
    {
      toLeft, toRight, scheduled, error := [], [], [], false;
      match message
      case SendMetrics =>
      case StopEating(id) =>
        if changes == id && mode == Eating {
          scheduled := StartThinking();
        }
      case BecomeHungry(id) =>
        if changes == id {
          if left.has && right.has {
            toLeft, toRight, scheduled := StartEating();
          } else if mode == Thinking {
            mode := Hungry;
            changes := changes + 1;
            toLeft, toRight := RequestMissingForks();
          } else {
            error := true;
          }
        }
      case GiveUpFork(fork) =>
        if fork == leftFork {
          if left.has {
            left := left.(has := false);
            toLeft := [PutForkDown(me)];
          }
        } else if fork == rightFork {
          if right.has {
            right := right.(has := false);
            toRight := [PutForkDown(me)];
          }
        } else {
          error := true;
        }
        if mode != Thinking {
          scheduled := StartThinking();
        }
      case ReceiveFork(fork) =>
        if fork == leftFork {
          left := Hand(true, false);
        } else if fork == rightFork {
          right := Hand(true, false);
        } else {
          error := true;
        }
        if left.has && right.has {
          toLeft, toRight, scheduled := StartEating();
        }
    }
  }
}
