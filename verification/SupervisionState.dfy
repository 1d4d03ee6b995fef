/**
 The supervision operations run in place, each proved to be the operation on values that is
 named in its contract.
 */
module SupervisionState {
  import opened Options
  import opened Supervision
  import T = Terminate

  /** All actor cells: their child sets, supervisors and statuses, and the kill signals sent. */
  class Forest {
    var children: map<Id, Option<set<Id>>>
    var supervisor: map<Id, Option<Id>>
    var status: map<Id, Status>
    var killed: seq<Id>

    ghost function Contents(): Tree
      reads this
    {
      Tree(children, supervisor, status)
    }

    constructor ()
      ensures Contents() == Tree(map[], map[], map[]) && Valid(Contents()) && killed == []
    {
      children, supervisor, status, killed := map[], map[], map[], [];
    }

    /** A new cell: an open, empty child set and no supervisor. */
    method NewCell(a: Id)
      requires Valid(Contents()) && a !in children
      modifies this
      ensures Contents() == Supervision.NewCell(old(Contents()), a)
      ensures Valid(Contents()) && killed == old(killed)
    {
      children := children[a := Some({})];
      supervisor := supervisor[a := None];
      status := status[a := Unstarted];
      NewCellMeaning(old(Contents()), a);
    }

    method Link(child: Id, parent: Id) returns (accepted: bool)
      requires Valid(Contents()) && child in children && parent in children
      modifies this`children, this`supervisor
      ensures Contents() == Supervision.Link(old(Contents()), child, parent) && Valid(Contents())
      ensures var up := {Unstarted, Starting, Running, Upgrading};
              accepted <==> status[child] in up && status[parent] in up && old(children[parent]).Some?
    {
      LinkMeaning(Contents(), child, parent);
      if Rank(status[child]) >= Rank(Draining) || Rank(status[parent]) >= Rank(Draining) {
        return false;
      }
      if children[parent].None? {
        return false;
      }
      if supervisor[child] == Some(parent) {
        children := children[parent := Some(children[parent].value + {child})];
        return true;
      }
      children := children[parent := Some(children[parent].value + {child})];
      var previous := supervisor[child];
      supervisor := supervisor[child := Some(parent)];
      if previous.Some? && previous.value in children && children[previous.value].Some? {
        children := children[previous.value := Some(children[previous.value].value - {child})];
      }
      return true;
    }

    method Unlink(child: Id, parent: Id)
      requires Valid(Contents()) && child in children
      modifies this`children, this`supervisor
      ensures Contents() == Supervision.Unlink(old(Contents()), child, parent) && Valid(Contents())
    {
      UnlinkMeaning(Contents(), child, parent);
      if supervisor[child] != Some(parent) {
        return;
      }
      if parent in children && children[parent].Some? {
        children := children[parent := Some(children[parent].value - {child})];
      }
      supervisor := supervisor[child := None];
    }

    method TakeChildren(parent: Id, order: T.Order) returns (cells: seq<Id>)
      requires Valid(Contents()) && parent in children
      modifies this`children, this`supervisor
      ensures Contents() == Supervision.TakeChildren(old(Contents()), parent) && Valid(Contents())
      ensures cells == T.Below(old(Contents()), parent, order) && children.Keys == old(children.Keys)
    {
      ghost var t := Contents();
      TakeFacts(t, parent, order);
      KidsAreCells(t, parent);
      hide Valid;
      cells := if children[parent].Some? then order(parent, children[parent].value) else [];
      children := children[parent := None];
      Detach(parent, cells);
    }

    /** Cut the taken children loose, one by one. */
    method Detach(parent: Id, cells: seq<Id>)
      requires forall c :: c in cells ==> c in supervisor
      modifies this`supervisor
      ensures supervisor == Detached(old(supervisor), parent, Members(cells))
    {
      hide Detached;
      DetachNone(supervisor, parent);
      var i := 0;
      while i < |cells|
        invariant i <= |cells| && supervisor.Keys == old(supervisor).Keys
        invariant supervisor == Detached(old(supervisor), parent, Members(cells[..i]))
      {
        var child := cells[i];
        DetachOne(old(supervisor), parent, cells, i);
        if supervisor[child] == Some(parent) {
          supervisor := supervisor[child := None];
        }
        i := i + 1;
      }
      assert cells[..i] == cells;
    }

    ghost predicate Pending(pending: seq<Id>)
      reads this
    {
      && Valid(Contents())
      && forall a :: a in pending ==> a in children
    }

    /** One round of the loop: pop an actor, kill it unless it is stopping, push its children. */
    method TerminateNext(pending: seq<Id>, order: T.Order) returns (rest: seq<Id>)
      requires pending != [] && Pending(pending)
      modifies this`children, this`supervisor, this`killed
      ensures Pending(rest)
      ensures var a := pending[|pending| - 1];
              && T.Work(old(Contents()), Reversed(pending), order)
                 == T.Then(T.Visit(old(Contents()), [a]), T.Work(Contents(), Reversed(rest), order))
              && killed == old(killed) + (if a in status && status[a] in {Unstarted, Starting, Running, Upgrading} then [a] else [])
      ensures |T.OpenCells(Contents())| < |T.OpenCells(old(Contents()))|
              || (|T.OpenCells(Contents())| == |T.OpenCells(old(Contents()))| && |rest| < |pending|)
    {
      hide Valid, T.Work, T.Below, T.OpenCells, Supervision.TakeChildren;
      ghost var t := Contents();
      var actor := pending[|pending| - 1];
      assert actor in pending;
      assert actor in status by { SameCells(t); }
      if Rank(status[actor]) <= Rank(Upgrading) {
        killed := killed + [actor];
      }
      var cells := TakeChildren(actor, order);
      rest := pending[..|pending| - 1] + Reversed(cells);
      RoundEnds(t, pending, order);
    }

    /** Terminate an actor: kill signals go, in the order of the depth-first visits, to exactly
        the actors at or below it that have not begun to drain or stop. */
    method Terminate(root: Id, order: T.Order)
      requires Valid(Contents()) && root in children
      modifies this`children, this`supervisor, this`killed
      ensures Contents() == T.VisitAll(old(Contents()), [root], order).tree && Valid(Contents())
      ensures old(killed) <= killed && Signals(T.VisitAll(old(Contents()), [root], order).visits, killed[|old(killed)|..])
      ensures forall b: Id :: b in killed[|old(killed)|..] <==>
                T.Reaches(old(Contents()), root, b) && b in status && status[b] in {Unstarted, Starting, Running, Upgrading}
    {
      hide Valid, T.Work, T.VisitAll, T.OpenCells, T.Reaches, Rank, Signals;
      var pending := [root];
      ghost var t, sent: seq<Id> := Contents(), [];
      T.WorklistIsDepthFirst(t, [root], order);
      assert Reversed(pending) == [root];
      while pending != []
        invariant Pending(pending)
        invariant T.Work(t, [root], order) == T.Then(T.Visit(t, sent), T.Work(Contents(), Reversed(pending), order))
        invariant killed == old(killed) + Alive(status, sent)
        decreases |T.OpenCells(Contents())|, |pending|
      {
        ghost var actor := pending[|pending| - 1];
        pending := TerminateNext(pending, order);
        ThenThen(t, sent, actor, T.Work(Contents(), Reversed(pending), order));
        AliveAppend(status, sent, actor);
        sent := sent + [actor];
      }
      Finished(Contents(), order);
      assert sent + [] == sent && Reversed(pending) == [];
      AliveMeaning(status, sent);
      forall b: Id ensures b in sent <==> T.Reaches(t, root, b) { T.ClosesExactlyTheReachable(t, root, order, b); }
    }
  }

  lemma ThenThen(t: Tree, sent: seq<Id>, a: Id, rest: T.Visit)
    ensures forall t' :: T.Then(T.Visit(t, sent), T.Then(T.Visit(t', [a]), rest)) == T.Then(T.Visit(t, sent + [a]), rest)
  {
    assert sent + ([a] + rest.visits) == sent + [a] + rest.visits;
  }

  /** The signals go along with some of the visits, in their order, and an actor that is
      signalled is so at each of its visits. */
  ghost predicate Signals(visits: seq<Id>, signals: seq<Id>)
  {
    exists at: seq<nat> :: SignalsAt(visits, signals, at)
  }

  ghost predicate SignalsAt(visits: seq<Id>, signals: seq<Id>, at: seq<nat>)
  {
    && |at| == |signals|
    && (forall i :: 0 <= i < |at| ==> at[i] < |visits| && signals[i] == visits[at[i]])
    && (forall i, j :: 0 <= i < j < |at| ==> at[i] < at[j])
    && (forall k: nat :: k < |visits| && visits[k] in signals ==> k in at)
  }

  lemma AliveAppend(status: map<Id, Status>, sent: seq<Id>, a: Id)
    ensures Alive(status, sent + [a]) ==
            Alive(status, sent) + if a in status && status[a] in {Unstarted, Starting, Running, Upgrading} then [a] else []
  {
    assert (sent + [a])[..|sent|] == sent;
  }

  lemma SignalsAppend(visits: seq<Id>, signals: seq<Id>, a: Id, more: seq<Id>, at: seq<nat>)
    requires SignalsAt(visits, signals, at) && (more == [a] || (more == [] && a !in signals))
    requires more == [a] ==> (a in visits ==> a in signals)
    ensures Signals(visits + [a], signals + more)
  {
    var at' := if more == [] then at else at + [|visits|];
    assert forall x :: x in at' <==> x in at || (more == [a] && x == |visits|);
    assert forall x :: x in signals + more <==> x in signals || (more == [a] && x == a);
    assert SignalsAt(visits + [a], signals + more, at');
  }

  lemma {:induction false} AliveMeaning(status: map<Id, Status>, visits: seq<Id>)
    ensures Signals(visits, Alive(status, visits))
    ensures forall b: Id :: b in Alive(status, visits) <==>
              b in visits && b in status && status[b] in {Unstarted, Starting, Running, Upgrading}
  {
    if visits == [] {
      assert SignalsAt(visits, [], []);
    } else {
      var rest, a := visits[..|visits| - 1], visits[|visits| - 1];
      assert visits == rest + [a];
      AliveMeaning(status, rest);
      AliveAppend(status, rest, a);
      hide Alive;
      var at :| SignalsAt(rest, Alive(status, rest), at);
      SignalsAppend(rest, Alive(status, rest), a,
                    if a in status && status[a] in {Unstarted, Starting, Running, Upgrading} then [a] else [], at);
    }
  }

  function Members(s: seq<Id>): set<Id> { set x | x in s }

  lemma DetachNone(supervisor: map<Id, Option<Id>>, p: Id)
    ensures Detached(supervisor, p, Members([])) == supervisor
  {
  }

  lemma DetachOne(supervisor: map<Id, Option<Id>>, p: Id, cells: seq<Id>, i: nat)
    requires i < |cells| && cells[i] in supervisor
    ensures var before, after := Detached(supervisor, p, Members(cells[..i])), Detached(supervisor, p, Members(cells[..i + 1]));
            && cells[i] in before
            && after == if before[cells[i]] == Some(p) then before[cells[i] := None] else before
  {
    assert cells[..i + 1] == cells[..i] + [cells[i]];
    assert Members(cells[..i + 1]) == Members(cells[..i]) + {cells[i]};
  }

  lemma KidsAreCells(t: Tree, p: Id)
    requires Valid(t)
    ensures forall c :: c in Kids(t, p) ==> c in t.children && c in t.supervisor
  {
    forall c | c in Kids(t, p) ensures c in t.children && c in t.supervisor { assert SupervisorOf(t, c) == Some(p); }
  }

  /** A closed child set yields nothing, an open one each of its members once. */
  lemma TakeFacts(t: Tree, p: Id, order: T.Order)
    requires Valid(t) && p in t.children
    ensures T.Below(t, p, order) == if t.children[p].Some? then order(p, t.children[p].value) else []
    ensures Members(T.Below(t, p, order)) == Kids(t, p) && T.Distinct(T.Below(t, p, order))
    ensures Valid(Supervision.TakeChildren(t, p))
  {
    hide Valid, Supervision.TakeChildren;
    TakeChildrenMeaning(t, p);
    T.BelowIsKids(t, p, order);
    NobodyListed(order(p, {}));
  }

  lemma NobodyListed(r: seq<Id>)
    ensures (forall c :: c !in r) ==> r == []
  {
    assert r != [] ==> r[0] in r;
  }

  function Reversed(s: seq<Id>): (r: seq<Id>)
    ensures |r| == |s| && forall i :: 0 <= i < |s| ==> r[i] == s[|s| - 1 - i]
  {
    seq(|s|, i requires 0 <= i < |s| => s[|s| - 1 - i])
  }

  /** One round of the loop, on a stack whose top is its end. */
  lemma Round(t: Tree, pending: seq<Id>, order: T.Order)
    requires pending != []
    ensures var a, below := pending[|pending| - 1], pending[..|pending| - 1];
            T.Work(t, Reversed(pending), order)
              == T.Then(T.Visit(t, [a]), T.Work(Supervision.TakeChildren(t, a), Reversed(below + Reversed(T.Below(t, a, order))), order))
  {
    hide TakeChildren, T.Below;
    var a, below := pending[|pending| - 1], pending[..|pending| - 1];
    assert Reversed(pending)[0] == a && Reversed(pending)[1..] == Reversed(below);
    assert Reversed(below + Reversed(T.Below(t, a, order))) == T.Below(t, a, order) + Reversed(below);
    T.TurnShrinks(t, a, order);
  }

  lemma RoundEnds(t: Tree, pending: seq<Id>, order: T.Order)
    requires pending != [] && Valid(t) && forall a :: a in pending ==> a in t.children
    ensures var a := pending[|pending| - 1];
            var t', rest := Supervision.TakeChildren(t, a), pending[..|pending| - 1] + Reversed(T.Below(t, a, order));
            && T.Work(t, Reversed(pending), order) == T.Then(T.Visit(t, [a]), T.Work(t', Reversed(rest), order))
            && (forall b :: b in rest ==> b in t.children)
            && (|T.OpenCells(t')| < |T.OpenCells(t)| || (|T.OpenCells(t')| == |T.OpenCells(t)| && |rest| < |pending|))
  {
    hide Valid, T.Work, T.Below, T.OpenCells, Supervision.TakeChildren;
    var a := pending[|pending| - 1];
    Round(t, pending, order);
    StillCells(t, a, order);
    T.TurnShrinks(t, a, order);
  }

  lemma SameCells(t: Tree)
    requires Valid(t)
    ensures t.children.Keys == t.supervisor.Keys == t.status.Keys
  {
  }

  lemma Finished(t: Tree, order: T.Order)
    ensures T.Work(t, [], order) == T.Visit(t, [])
  {
  }

  lemma StillCells(t: Tree, a: Id, order: T.Order)
    requires Valid(t)
    ensures forall c :: c in Reversed(T.Below(t, a, order)) ==> c in t.children
  {
    var kids := T.Below(t, a, order);
    forall i | 0 <= i < |Reversed(kids)| ensures Reversed(kids)[i] in t.children {
      assert Reversed(kids)[i] in kids;
      assert SupervisorOf(t, Reversed(kids)[i]) == Some(a);
    }
  }

  /** The actors among the visited that are sent a kill signal: those not stopping yet. */
  function Alive(status: map<Id, Status>, visits: seq<Id>): seq<Id>
  {
    if visits == [] then []
    else
      var last := visits[|visits| - 1];
      Alive(status, visits[..|visits| - 1]) + (if last in status && Rank(status[last]) <= Rank(Upgrading) then [last] else [])
  }
}
