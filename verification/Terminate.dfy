/**
 Terminating an actor and everything below it: the worklist, the recursive depth-first form it
 replaces, and what either closes.
 */
module Terminate {
  import opened Options
  import opened Supervision

  predicate Distinct(s: seq<Id>) { forall i, j :: 0 <= i < j < |s| ==> s[i] != s[j] }

  ghost predicate Lists(order: (Id, set<Id>) -> seq<Id>)
  {
    forall p, kids :: Distinct(order(p, kids)) && forall x :: x in order(p, kids) <==> x in kids
  }

  /** The order in which the children of an actor come out of its hash map: each of them, once. */
  type Order = order: (Id, set<Id>) -> seq<Id> | Lists(order) ghost witness (_, kids) => SomeOrder(kids)

  ghost function SomeOrder(kids: set<Id>): (r: seq<Id>)
    ensures Distinct(r) && forall x :: x in r <==> x in kids
  {
    if kids == {} then [] else var x :| x in kids; [x] + SomeOrder(kids - {x})
  }

  function OpenCells(t: Tree): set<Id>
  {
    set p | p in t.children && t.children[p].Some?
  }

  /** The children an actor's turn takes, in order. */
  function Below(t: Tree, a: Id, order: Order): seq<Id> { order(a, Kids(t, a)) }

  /** A turn closes an open child set, or finds nothing below the actor. */
  lemma TurnShrinks(t: Tree, a: Id, order: Order)
    ensures OpenCells(TakeChildren(t, a)) == OpenCells(t) - {a}
    ensures |OpenCells(TakeChildren(t, a))| <= |OpenCells(t)|
    ensures Below(t, a, order) == [] || |OpenCells(TakeChildren(t, a))| < |OpenCells(t)|
  {
    assert OpenCells(TakeChildren(t, a)) == OpenCells(t) - {a};
    if Below(t, a, order) != [] {
      assert Below(t, a, order)[0] in Below(t, a, order);
      assert a in OpenCells(t);
    }
  }

  /** A turn finds exactly the children, and they are cells. */
  lemma BelowIsKids(t: Tree, a: Id, order: Order)
    ensures Distinct(Below(t, a, order)) && forall c :: c in Below(t, a, order) <==> c in Kids(t, a)
    ensures Valid(t) ==> forall c :: c in Below(t, a, order) ==> c in t.children
  {
    if Valid(t) {
      forall c | c in Kids(t, a) ensures c in t.children { assert SupervisorOf(t, c) == Some(a); }
    }
  }

  /** The tree left behind and the actors visited, in order. */
  datatype Visit = Visit(tree: Tree, visits: seq<Id>)

  /** The recursive form: visit each actor, then what was below it, before the next. */
  function VisitAll(t: Tree, actors: seq<Id>, order: Order): (r: Visit)
    ensures |OpenCells(r.tree)| <= |OpenCells(t)|
    decreases |OpenCells(t)|, |actors|
  {
    if actors == [] then Visit(t, [])
    else
      TurnShrinks(t, actors[0], order);
      var below := VisitAll(TakeChildren(t, actors[0]), Below(t, actors[0], order), order);
      var rest := VisitAll(below.tree, actors[1..], order);
      Visit(rest.tree, [actors[0]] + below.visits + rest.visits)
  }

  /** The iterative form: a stack, its top first. */
  function Work(t: Tree, stack: seq<Id>, order: Order): Visit
    decreases |OpenCells(t)|, |stack|
  {
    if stack == [] then Visit(t, [])
    else
      TurnShrinks(t, stack[0], order);
      var rest := Work(TakeChildren(t, stack[0]), Below(t, stack[0], order) + stack[1..], order);
      Visit(rest.tree, [stack[0]] + rest.visits)
  }

  function Then(first: Visit, second: Visit): Visit { Visit(second.tree, first.visits + second.visits) }

  lemma Joined(a: Id, x: seq<Id>, y: seq<Id>, z: seq<Id>)
    ensures [a] + (x + (y + z)) == ([a] + x + y) + z
  {
  }

  /** What is on top of the stack is done, in full, before what is below it. */
  lemma {:induction false} WorkSplits(t: Tree, top: seq<Id>, bottom: seq<Id>, order: Order)
    ensures Work(t, top + bottom, order)
         == Then(VisitAll(t, top, order), Work(VisitAll(t, top, order).tree, bottom, order))
    decreases |OpenCells(t)|, |top|
  {
    if top == [] {
      assert top + bottom == bottom;
    } else {
      hide TakeChildren, OpenCells, Below;
      var t', kids := TakeChildren(t, top[0]), Below(t, top[0], order);
      TurnShrinks(t, top[0], order);
      var below := VisitAll(t', kids, order);
      var middle := VisitAll(below.tree, top[1..], order);
      assert VisitAll(t, top, order) == Visit(middle.tree, [top[0]] + below.visits + middle.visits);
      assert (top + bottom)[1..] == top[1..] + bottom;
      var whole := Work(t', kids + (top[1..] + bottom), order);
      assert Work(t, top + bottom, order) == Visit(whole.tree, [top[0]] + whole.visits);
      hide Work, VisitAll;
      WorkSplits(t', kids, top[1..] + bottom, order);
      WorkSplits(below.tree, top[1..], bottom, order);
      Joined(top[0], below.visits, middle.visits, Work(middle.tree, bottom, order).visits);
    }
  }

  /** The worklist visits the same actors, in the same order, and leaves the same tree. */
  lemma WorklistIsDepthFirst(t: Tree, actors: seq<Id>, order: Order)
    ensures Work(t, actors, order) == VisitAll(t, actors, order)
  {
    WorkSplits(t, actors, [], order);
    assert actors + [] == actors;
    var v := VisitAll(t, actors, order);
    assert v.visits + [] == v.visits;
  }

  // ------------------------------------------------------------------ what is closed

  ghost predicate IsPath(t: Tree, path: seq<Id>)
  {
    && path != []
    && forall i :: 0 <= i < |path| - 1 ==> path[i + 1] in Kids(t, path[i])
  }

  /** `b` is at or below `a`, along open child sets. */
  ghost predicate Reaches(t: Tree, a: Id, b: Id)
  {
    exists path :: IsPath(t, path) && path[0] == a && path[|path| - 1] == b
  }

  lemma ReachesKid(t: Tree, a: Id, b: Id, c: Id)
    requires Reaches(t, a, b) && c in Kids(t, b)
    ensures Reaches(t, a, c)
  {
    var path :| IsPath(t, path) && path[0] == a && path[|path| - 1] == b;
    assert IsPath(t, path + [c]);
  }

  /** Child sets only ever go from what they are to closed. */
  ghost predicate Later(t: Tree, t': Tree)
  {
    forall p: Id :: Kids(t', p) == {} || Kids(t', p) == Kids(t, p)
  }

  lemma TurnLater(t0: Tree, t: Tree, a: Id, order: Order)
    requires Later(t0, t)
    ensures Later(t0, TakeChildren(t, a))
    ensures forall c :: c in Below(t, a, order) ==> c in Kids(t0, a)
  {
  }

  /** Nothing is visited that is not at or below one of the actors. */
  lemma {:induction false} VisitsOnlyReachable(t0: Tree, t: Tree, root: Id, actors: seq<Id>, order: Order)
    requires Later(t0, t) && forall a :: a in actors ==> Reaches(t0, root, a)
    ensures Later(t0, VisitAll(t, actors, order).tree)
    ensures forall b :: b in VisitAll(t, actors, order).visits ==> Reaches(t0, root, b)
    decreases |OpenCells(t)|, |actors|
  {
    hide OpenCells, TakeChildren, Later, Reaches, Kids, Below;
    if actors != [] {
      var a := actors[0];
      TurnShrinks(t, a, order);
      TurnLater(t0, t, a, order);
      var t', kids := TakeChildren(t, a), Below(t, a, order);
      forall c | c in kids ensures Reaches(t0, root, c) { ReachesKid(t0, root, a, c); }
      VisitsOnlyReachable(t0, t', root, kids, order);
      VisitsOnlyReachable(t0, VisitAll(t', kids, order).tree, root, actors[1..], order);
    }
  }

  /** Exactly the visited child sets are closed, and the others are as before. */
  lemma {:induction false} VisitsClose(t: Tree, actors: seq<Id>, order: Order)
    ensures forall a :: a in actors ==> a in VisitAll(t, actors, order).visits
    ensures forall b: Id :: Closed(VisitAll(t, actors, order).tree, b) <==> Closed(t, b) || b in VisitAll(t, actors, order).visits
    ensures forall b: Id :: b !in VisitAll(t, actors, order).visits ==> Kids(VisitAll(t, actors, order).tree, b) == Kids(t, b)
    decreases |OpenCells(t)|, |actors|
  {
    if actors != [] {
      var a := actors[0];
      TurnShrinks(t, a, order);
      var t', kids := TakeChildren(t, a), Below(t, a, order);
      assert forall b: Id :: Closed(t', b) <==> Closed(t, b) || b == a;
      assert forall b: Id :: b != a ==> Kids(t', b) == Kids(t, b);
      hide OpenCells, TakeChildren, Kids, Closed;
      VisitsClose(t', kids, order);
      VisitsClose(VisitAll(t', kids, order).tree, actors[1..], order);
    }
  }

  /** With an actor, everything below it is visited. */
  lemma {:induction false} VisitsAllBelow(t: Tree, actors: seq<Id>, order: Order, b: Id, c: Id)
    requires b in VisitAll(t, actors, order).visits && c in Below(t, b, order)
    ensures c in VisitAll(t, actors, order).visits
    decreases |OpenCells(t)|, |actors|
  {
    var a := actors[0];
    TurnShrinks(t, a, order);
    var t', kids := TakeChildren(t, a), Below(t, a, order);
    assert b != a ==> Below(t', b, order) == Below(t, b, order);
    var below := VisitAll(t', kids, order);
    VisitsClose(t', kids, order);
    assert b !in below.visits ==> Below(below.tree, b, order) == Below(t', b, order);
    hide OpenCells, TakeChildren, Below;
    if b == a {
    } else if b in below.visits {
      VisitsAllBelow(t', kids, order, b, c);
    } else {
      VisitsAllBelow(below.tree, actors[1..], order, b, c);
    }
  }

  lemma {:induction false} PathIsVisited(t: Tree, root: Id, order: Order, path: seq<Id>, k: nat)
    requires Valid(t) && root in t.children
    requires IsPath(t, path) && path[0] == root && k < |path|
    ensures path[k] in VisitAll(t, [root], order).visits && path[k] in t.children
  {
    if k == 0 {
      VisitsClose(t, [root], order);
      assert root in [root];
    } else {
      PathIsVisited(t, root, order, path, k - 1);
      assert path[(k - 1) + 1] in Kids(t, path[k - 1]);
      BelowIsKids(t, path[k - 1], order);
      VisitsAllBelow(t, [root], order, path[k - 1], path[k]);
      assert SupervisorOf(t, path[k]) == Some(path[k - 1]);
    }
  }

  /** Run alone, terminating `root` visits exactly the actors at or below it, and the child sets
      closed afterwards are those closed before and those of the visited: cycles do no harm. */
  lemma ClosesExactlyTheReachable(t: Tree, root: Id, order: Order, b: Id)
    requires Valid(t) && root in t.children
    ensures b in Work(t, [root], order).visits <==> Reaches(t, root, b)
    ensures Closed(Work(t, [root], order).tree, b) <==> Closed(t, b) || Reaches(t, root, b)
  {
    WorklistIsDepthFirst(t, [root], order);
    hide Work, VisitAll;
    assert IsPath(t, [root]);
    assert Reaches(t, root, root);
    VisitsOnlyReachable(t, t, root, [root], order);
    VisitsClose(t, [root], order);
    if Reaches(t, root, b) {
      var path :| IsPath(t, path) && path[0] == root && path[|path| - 1] == b;
      PathIsVisited(t, root, order, path, |path| - 1);
    }
  }

  // ------------------------------------------------------------------ with the tree changing meanwhile

  /** What the others do before each turn: they create, link, unlink and take, and change statuses. */
  type Others = nat -> seq<Op>

  datatype Pending = Pending(tree: Tree, stack: seq<Id>, visits: seq<Id>)

  function Turn(w: Pending, order: Order, ops: seq<Op>): Pending
  {
    var t := ApplyAll(w.tree, ops);
    if w.stack == [] then w.(tree := t)
    else Pending(TakeChildren(t, w.stack[0]), Below(t, w.stack[0], order) + w.stack[1..], w.visits + [w.stack[0]])
  }

  /** The worklist after `n` turns, the others having done `others(k)` before turn `k`. */
  function Turns(t: Tree, stack: seq<Id>, order: Order, others: Others, n: nat): Pending
  {
    if n == 0 then Pending(t, stack, []) else Turn(Turns(t, stack, order, others, n - 1), order, others(n - 1))
  }

  /** The tree is valid, the stack holds cells and what was visited is closed. */
  ghost predicate Sound(w: Pending)
  {
    && Valid(w.tree)
    && (forall a :: a in w.stack ==> a in w.tree.children)
    && (forall a :: a in w.visits ==> Closed(w.tree, a))
  }

  /** Cells stay, closed child sets stay closed, and visits are not forgotten; what was on the
      stack is still there or has been visited. */
  ghost predicate Follows(w: Pending, w': Pending)
  {
    && w.tree.children.Keys <= w'.tree.children.Keys
    && (forall p: Id :: Closed(w.tree, p) ==> Closed(w'.tree, p))
    && w.visits <= w'.visits
    && (forall a :: a in w.stack ==> a in w'.stack || a in w'.visits)
  }

  lemma TurnSound(w: Pending, order: Order, ops: seq<Op>)
    requires Sound(w)
    ensures Sound(Turn(w, order, ops)) && Follows(w, Turn(w, order, ops))
    ensures Turn(w, order, ops).tree.children.Keys == w.tree.children.Keys + Created(ops)
  {
    hide Valid, Apply, ApplyAll;
    var t := ApplyAll(w.tree, ops);
    RunsKeep(w.tree, ops);
    if w.stack != [] {
      var a := w.stack[0];
      assert a in w.stack;
      TakeChildrenMeaning(t, a);
      BelowIsKids(t, a, order);
      assert w.stack == [a] + w.stack[1..];
    }
  }

  lemma {:induction false} TurnsSound(t: Tree, stack: seq<Id>, order: Order, others: Others, n: nat)
    requires Valid(t) && forall a :: a in stack ==> a in t.children
    ensures Sound(Turns(t, stack, order, others, n))
  {
    hide Turn, Follows;
    if n > 0 {
      TurnsSound(t, stack, order, others, n - 1);
      TurnSound(Turns(t, stack, order, others, n - 1), order, others(n - 1));
    }
  }

  /** After any number of turns, whatever the others do and however many actors they create:
      the tree is valid, every visited child set is closed, now and later, and everything the
      worklist had to visit before is visited or still to be visited. */
  lemma {:induction false} AmongOthersStillCloses(t: Tree, stack: seq<Id>, order: Order, others: Others, k: nat, n: nat)
    requires Valid(t) && (forall a :: a in stack ==> a in t.children) && k <= n
    ensures var v, w := Turns(t, stack, order, others, k), Turns(t, stack, order, others, n);
            && Sound(w) && Follows(v, w)
            && (w.stack == [] ==> forall a :: a in v.stack ==> a in w.visits)
  {
    hide Turn, Sound;
    TurnsSound(t, stack, order, others, n);
    if n > k {
      AmongOthersStillCloses(t, stack, order, others, k, n - 1);
      TurnSound(Turns(t, stack, order, others, n - 1), order, others(n - 1));
    }
  }

  /** Whatever a turn finds below the actor it visits, created meanwhile or not, is from then
      on visited or still to be visited. */
  lemma {:induction false} AmongOthersVisitsAllFound(t: Tree, stack: seq<Id>, order: Order, others: Others, k: nat, n: nat, c: Id)
    requires Valid(t) && (forall a :: a in stack ==> a in t.children) && k < n
    requires var w := Turns(t, stack, order, others, k);
             w.stack != [] && c in Kids(ApplyAll(w.tree, others(k)), w.stack[0])
    ensures var w := Turns(t, stack, order, others, n);
            c in w.stack || c in w.visits
  {
    hide Turn, Sound;
    TurnsSound(t, stack, order, others, n - 1);
    if n == k + 1 {
      FoundIsPushed(Turns(t, stack, order, others, k), order, others(k), c);
    } else {
      AmongOthersVisitsAllFound(t, stack, order, others, k, n - 1, c);
      TurnSound(Turns(t, stack, order, others, n - 1), order, others(n - 1));
    }
  }

  lemma FoundIsPushed(w: Pending, order: Order, ops: seq<Op>, c: Id)
    requires w.stack != [] && c in Kids(ApplyAll(w.tree, ops), w.stack[0])
    ensures c in Turn(w, order, ops).stack
  {
    hide ApplyAll, Kids;
    BelowIsKids(ApplyAll(w.tree, ops), w.stack[0], order);
  }

  // ------------------------------------------------------------------ when it ends

  ghost predicate Ends(t: Tree, stack: seq<Id>, order: Order, others: Others)
  {
    exists n: nat :: Turns(t, stack, order, others, n).stack == []
  }

  ghost predicate CreatesWithin(others: Others, ids: iset<Id>)
  {
    forall k, a :: a in Created(others(k)) ==> a in ids
  }

  ghost predicate AtMost(ids: iset<Id>, top: Id) { forall a :: a in ids ==> a <= top }

  /** Finitely many, the actors being numbered. */
  ghost predicate Bounded(ids: iset<Id>) { exists top :: AtMost(ids, top) }

  /** Those of the actors whose child sets are not closed, whether or not they exist yet. */
  function NotClosed(ids: set<Id>, t: Tree): set<Id> { set p | p in ids && !Closed(t, p) }

  lemma FewerNotClosed(ids: set<Id>, t: Tree, t': Tree)
    requires forall p: Id :: Closed(t, p) ==> Closed(t', p)
    ensures NotClosed(ids, t') <= NotClosed(ids, t) && |NotClosed(ids, t')| <= |NotClosed(ids, t)|
  {
    assert NotClosed(ids, t) == NotClosed(ids, t') + (NotClosed(ids, t) - NotClosed(ids, t'));
  }

  /** A turn closes one more child set for good, or shortens the stack. */
  lemma TurnProgresses(w: Pending, order: Order, ops: seq<Op>, ids: set<Id>)
    requires Sound(w) && w.stack != [] && w.tree.children.Keys + Created(ops) <= ids
    ensures var w' := Turn(w, order, ops);
            || |NotClosed(ids, w'.tree)| < |NotClosed(ids, w.tree)|
            || (|NotClosed(ids, w'.tree)| == |NotClosed(ids, w.tree)| && |w'.stack| < |w.stack|)
  {
    hide Valid, Apply, ApplyAll, Sound;
    TurnSound(w, order, ops);
    var a, t, w' := w.stack[0], ApplyAll(w.tree, ops), Turn(w, order, ops);
    FewerNotClosed(ids, w.tree, w'.tree);
    OpenWasOpen(w, order, ops);
    if Below(t, a, order) != [] {
      assert NotClosed(ids, w'.tree) <= NotClosed(ids, w.tree) - {a};
      assert a in NotClosed(ids, w.tree);
      assert |NotClosed(ids, w'.tree)| <= |NotClosed(ids, w.tree) - {a}| by {
        assert NotClosed(ids, w.tree) - {a} == NotClosed(ids, w'.tree) + (NotClosed(ids, w.tree) - {a} - NotClosed(ids, w'.tree));
      }
    }
  }

  /** An actor found with children was not closed before. */
  lemma OpenWasOpen(w: Pending, order: Order, ops: seq<Op>)
    requires Sound(w) && w.stack != []
    ensures Closed(Turn(w, order, ops).tree, w.stack[0]) && w.stack[0] in w.tree.children
    ensures Below(ApplyAll(w.tree, ops), w.stack[0], order) != [] ==> !Closed(w.tree, w.stack[0])
  {
    hide Valid, Apply, ApplyAll;
    var a, t := w.stack[0], ApplyAll(w.tree, ops);
    assert a in w.stack;
    RunsKeep(w.tree, ops);
    BelowIsKids(t, a, order);
    if Below(t, a, order) != [] { assert Below(t, a, order)[0] in Below(t, a, order); }
  }

  lemma CellsWithin(t: Tree, stack: seq<Id>, order: Order, others: Others, n: nat, ids: set<Id>)
    requires Valid(t) && (forall a :: a in stack ==> a in t.children) && t.children.Keys <= ids
    requires forall k :: Created(others(k)) <= ids
    ensures Turns(t, stack, order, others, n).tree.children.Keys <= ids
  {
    hide Turn;
    if n > 0 {
      CellsWithin(t, stack, order, others, n - 1, ids);
      TurnsSound(t, stack, order, others, n - 1);
      TurnSound(Turns(t, stack, order, others, n - 1), order, others(n - 1));
      assert Created(others(n - 1)) <= ids;
    }
  }

  lemma {:induction false} EndsFrom(t: Tree, stack: seq<Id>, order: Order, others: Others, k: nat, ids: set<Id>)
    requires Valid(t) && (forall a :: a in stack ==> a in t.children) && t.children.Keys <= ids
    requires forall k :: Created(others(k)) <= ids
    ensures Ends(t, stack, order, others)
    decreases |NotClosed(ids, Turns(t, stack, order, others, k).tree)|, |Turns(t, stack, order, others, k).stack|
  {
    hide Turn, Sound, NotClosed, Created;
    var w := Turns(t, stack, order, others, k);
    if w.stack != [] {
      TurnsSound(t, stack, order, others, k);
      CellsWithin(t, stack, order, others, k, ids);
      assert Created(others(k)) <= ids;
      TurnProgresses(w, order, others(k), ids);
      assert Turns(t, stack, order, others, k + 1) == Turn(w, order, others(k));
      EndsFrom(t, stack, order, others, k + 1, ids);
    }
  }

  function UpTo(top: Id): (ids: set<Id>)
    ensures forall a: Id :: a in ids <==> a <= top
  {
    if top == 0 then {0} else UpTo(top - 1) + {top}
  }

  /** Among others that create finitely many actors the worklist ends. */
  lemma BoundedCreationEnds(t: Tree, stack: seq<Id>, order: Order, others: Others, allowed: iset<Id>)
    requires Valid(t) && forall a :: a in stack ==> a in t.children
    requires CreatesWithin(others, allowed) && Bounded(allowed)
    ensures Ends(t, stack, order, others)
  {
    var top :| AtMost(allowed, top);
    var ids := t.children.Keys + UpTo(top);
    forall k ensures Created(others(k)) <= ids {
      forall a | a in Created(others(k)) ensures a in ids { assert a in allowed; }
    }
    EndsFrom(t, stack, order, others, 0, ids);
  }

  // ------------------------------------------------------------------ and when it need not

  const ROOT := NewCell(Tree(map[], map[], map[]), 0)

  /** Ever greater actors, after the root. */
  ghost function Nth(allowed: iset<Id>, k: nat): Id
  {
    if k == 0 then 0
    else if a: Id :| a in allowed && a > Nth(allowed, k - 1) then a
    else 0
  }

  lemma NthGrows(allowed: iset<Id>, k: nat)
    requires !Bounded(allowed)
    ensures Nth(allowed, k + 1) in allowed && Nth(allowed, k + 1) > Nth(allowed, k)
  {
    var below := Nth(allowed, k);
    assert !AtMost(allowed, below);
  }

  /** Somebody always creates an actor and puts it under the one whose turn comes next. */
  ghost function Breed(allowed: iset<Id>, k: nat): seq<Op>
  {
    [Create(Nth(allowed, k + 1)), DoLink(Nth(allowed, k + 1), Nth(allowed, k))]
  }

  ghost function Breeding(allowed: iset<Id>): Others { (k: nat) => Breed(allowed, k) }

  /** Actor `a` is the greatest to exist, is open and has no children. */
  predicate Youngest(t: Tree, a: Id)
  {
    && a in t.children && t.children[a] == Some({}) && a in t.status && t.status[a] == Unstarted
    && (forall j :: j in t.children ==> j <= a)
    && (forall j :: j in t.supervisor ==> j <= a)
  }

  lemma BredTree(t: Tree, a: Id, b: Id)
    requires Youngest(t, a) && a < b
    ensures var t1 := ApplyAll(t, [Create(b), DoLink(b, a)]);
            Kids(t1, a) == {b} && Youngest(TakeChildren(t1, a), b)
  {
    var c := NewCell(t, b);
    assert [Create(b), DoLink(b, a)][1..] == [DoLink(b, a)];
    assert ApplyAll(t, [Create(b), DoLink(b, a)]) == ApplyAll(c, [DoLink(b, a)]);
    assert ApplyAll(c, [DoLink(b, a)]) == Link(c, b, a);
    assert SupervisorOf(c, b) == None && Kids(c, a) == {};
    assert Link(c, b, a) == SetSupervisor(SetKids(c, a, {} + {b}), b, Some(a));
  }

  lemma TwoListed(r: seq<Id>)
    requires Distinct(r) && |r| > 1
    ensures exists x, y :: x in r && y in r && x != y
  {
    assert r[0] in r && r[1] in r;
  }

  lemma OneListed(order: Order, p: Id, x: Id)
    ensures order(p, {x}) == [x]
  {
    var r := order(p, {x});
    assert x in r;
    if |r| > 1 { TwoListed(r); }
  }

  lemma {:induction false} BredTurns(allowed: iset<Id>, order: Order, n: nat)
    requires !Bounded(allowed)
    ensures var w := Turns(ROOT, [0], order, Breeding(allowed), n);
            Youngest(w.tree, Nth(allowed, n)) && w.stack == [Nth(allowed, n)]
  {
    hide ApplyAll, TakeChildren, Kids, Youngest, Nth, Bounded;
    if n == 0 {
      RootIsYoungest();
      FirstIsRoot(allowed);
    } else {
      BredTurns(allowed, order, n - 1);
      NthGrows(allowed, n - 1);
      BredTree(Turns(ROOT, [0], order, Breeding(allowed), n - 1).tree, Nth(allowed, n - 1), Nth(allowed, n));
      OneListed(order, Nth(allowed, n - 1), Nth(allowed, n));
    }
  }

  lemma RootIsYoungest()
    ensures Youngest(ROOT, 0) && Valid(ROOT)
  {
  }

  lemma FirstIsRoot(allowed: iset<Id>)
    ensures Nth(allowed, 0) == 0
  {
  }

  /** Whatever unbounded set of actors may be created, and in whatever order children come
      out, there is a run in which the worklist never ends. */
  lemma EndlessCreation(allowed: iset<Id>, order: Order)
    requires !Bounded(allowed)
    ensures CreatesWithin(Breeding(allowed), allowed) && !Ends(ROOT, [0], order, Breeding(allowed))
  {
    hide Bounded, Nth;
    forall n: nat ensures Turns(ROOT, [0], order, Breeding(allowed), n).stack != [] { BredTurns(allowed, order, n); }
    forall k, a | a in Created(Breeding(allowed)(k)) ensures a in allowed { NthGrows(allowed, k); }
  }

  /** The worklist ends in every run in which only actors of `allowed` are created, if and only
      if there are finitely many of these. */
  lemma EndsIffBounded(allowed: iset<Id>)
    ensures (forall t, stack, order: Order, others ::
               Valid(t) && (forall a :: a in stack ==> a in t.children) && CreatesWithin(others, allowed) ==>
                 Ends(t, stack, order, others))
        <==> Bounded(allowed)
  {
    hide Ends, Valid, CreatesWithin, Bounded;
    if Bounded(allowed) {
      forall t, stack, order: Order, others
        | Valid(t) && (forall a :: a in stack ==> a in t.children) && CreatesWithin(others, allowed)
        ensures Ends(t, stack, order, others)
      {
        BoundedCreationEnds(t, stack, order, others, allowed);
      }
    } else {
      var order: Order := (_, kids) => SomeOrder(kids);
      EndlessCreation(allowed, order);
      RootIsYoungest();
      assert 0 in ROOT.children;
    }
  }

  // ------------------------------------------------------------------ alone

  lemma {:induction false} AloneSoFar(t: Tree, stack: seq<Id>, order: Order, n: nat)
    ensures var w := Turns(t, stack, order, _ => [], n);
            Work(t, stack, order) == Then(Visit(w.tree, w.visits), Work(w.tree, w.stack, order))
  {
    hide OpenCells, TakeChildren, Below;
    var w := Turns(t, stack, order, _ => [], n);
    if n == 0 {
      assert [] + Work(t, stack, order).visits == Work(t, stack, order).visits;
    } else {
      AloneSoFar(t, stack, order, n - 1);
      var v := Turns(t, stack, order, _ => [], n - 1);
      if v.stack != [] {
        TurnShrinks(v.tree, v.stack[0], order);
        assert v.visits + ([v.stack[0]] + Work(w.tree, w.stack, order).visits) == w.visits + Work(w.tree, w.stack, order).visits;
      }
    }
  }

  /** Undisturbed, the turns end, with the tree and the visits of the depth-first form. */
  lemma AloneIsDepthFirst(t: Tree, stack: seq<Id>, order: Order) returns (n: nat)
    requires Valid(t) && forall a :: a in stack ==> a in t.children
    ensures var v := VisitAll(t, stack, order);
            Turns(t, stack, order, _ => [], n) == Pending(v.tree, [], v.visits)
  {
    hide Valid, Turn;
    assert AtMost(iset{}, 0);
    BoundedCreationEnds(t, stack, order, _ => [], iset{});
    n :| Turns(t, stack, order, _ => [], n).stack == [];
    AloneSoFar(t, stack, order, n);
    WorklistIsDepthFirst(t, stack, order);
    var w := Turns(t, stack, order, _ => [], n);
    assert w.visits + [] == w.visits;
  }
}
