/**
 The supervision tree: which actor supervises which. Every actor has a child set, which is
 closed for good once its termination starts, and at most one supervisor.
 */
module Supervision {
  import opened Options

  type Id = nat

  datatype Status = Unstarted | Starting | Running | Upgrading | Draining | Stopping | Stopped

  /** The statuses in lifecycle order. */
  function Rank(s: Status): nat
  {
    match s
    case Unstarted => 0
    case Starting => 1
    case Running => 2
    case Upgrading => 3
    case Draining => 4
    case Stopping => 5
    case Stopped => 6
  }

  /** For every actor cell, its child set (`None` when closed), supervisor and status. */
  datatype Tree = Tree(children: map<Id, Option<set<Id>>>, supervisor: map<Id, Option<Id>>, status: map<Id, Status>)

  ghost predicate Cells(t: Tree)
  {
    t.children.Keys == t.supervisor.Keys == t.status.Keys
  }

  predicate Closed(t: Tree, p: Id)
  {
    p in t.children && t.children[p].None?
  }

  /** The members of the child set, if it is open. */
  function Kids(t: Tree, p: Id): set<Id>
  {
    if p in t.children && t.children[p].Some? then t.children[p].value else {}
  }

  function SupervisorOf(t: Tree, c: Id): Option<Id>
  {
    if c in t.supervisor then t.supervisor[c] else None
  }

  /** `c`'s supervisor is `p` if and only if `p`'s child set is open and contains `c`. */
  ghost predicate Linked(t: Tree)
  {
    forall c: Id, p: Id :: SupervisorOf(t, c) == Some(p) <==> c in Kids(t, p)
  }

  ghost predicate Valid(t: Tree)
  {
    Cells(t) && Linked(t)
  }

  // ------------------------------------------------------------------ the operations

  /** Whether a link is accepted: neither end is shutting down and the child set is open. */
  predicate Accepts(t: Tree, c: Id, p: Id)
    requires c in t.status && p in t.status
  {
    Rank(t.status[c]) < Rank(Draining) && Rank(t.status[p]) < Rank(Draining) && !Closed(t, p)
  }

  function SetKids(t: Tree, p: Id, kids: set<Id>): Tree { t.(children := t.children[p := Some(kids)]) }
  function SetSupervisor(t: Tree, c: Id, s: Option<Id>): Tree { t.(supervisor := t.supervisor[c := s]) }

  function DropKid(t: Tree, p: Id, c: Id): Tree
  {
    if p in t.children && t.children[p].Some? then SetKids(t, p, Kids(t, p) - {c}) else t
  }

  function Link(t: Tree, c: Id, p: Id): Tree
    requires c in t.status && p in t.status
  {
    if Accepts(t, c, p) then Attach(t, c, p) else t
  }

  /** The child joins the open child set; a supervisor that is replaced then loses the child. */
  function Attach(t: Tree, c: Id, p: Id): Tree
  {
    var joined := SetKids(t, p, Kids(t, p) + {c});
    if SupervisorOf(t, c) == Some(p) then joined
    else if SupervisorOf(t, c).Some? then DropKid(SetSupervisor(joined, c, Some(p)), SupervisorOf(t, c).value, c)
    else SetSupervisor(joined, c, Some(p))
  }

  function Unlink(t: Tree, c: Id, p: Id): Tree
  {
    if SupervisorOf(t, c) != Some(p) then t else SetSupervisor(DropKid(t, p, c), c, None)
  }

  /** The children of `p`, cut loose. */
  function Detached(supervisor: map<Id, Option<Id>>, p: Id, kids: set<Id>): map<Id, Option<Id>>
  {
    map c | c in supervisor :: if c in kids && supervisor[c] == Some(p) then None else supervisor[c]
  }

  function TakeChildren(t: Tree, p: Id): Tree
  {
    t.(children := t.children[p := None], supervisor := Detached(t.supervisor, p, Kids(t, p)))
  }

  /** A new cell has an open, empty child set and no supervisor. */
  function NewCell(t: Tree, a: Id): Tree
  {
    Tree(t.children[a := Some({})], t.supervisor[a := None], t.status[a := Unstarted])
  }

  // ------------------------------------------------------------------ what the operations mean

  /** Attaching moves `c`, and only `c`, under `p`. */
  lemma AttachMeaning(t: Tree, c: Id, p: Id)
    requires Valid(t) && c in t.children && p in t.children && !Closed(t, p)
    ensures var t' := Attach(t, c, p);
            && Valid(t')
            && (forall d: Id :: SupervisorOf(t', d) == if d == c then Some(p) else SupervisorOf(t, d))
            && (forall q: Id :: Closed(t', q) <==> Closed(t, q))
            && t'.status == t.status
  {
    var t' := Attach(t, c, p);
    forall q: Id ensures Kids(t', q) == if q == p then Kids(t, p) + {c} else Kids(t, q) - {c} {
      if c in Kids(t, q) { assert SupervisorOf(t, c) == Some(q); }
    }
    forall d: Id, q: Id ensures SupervisorOf(t', d) == Some(q) <==> d in Kids(t', q) {
      assert SupervisorOf(t, d) == Some(q) <==> d in Kids(t, q);
    }
  }

  /** A link moves `c`, and only `c`, under `p`, if neither has begun to drain or stop and the
      child set is open; otherwise it changes nothing. */
  lemma LinkMeaning(t: Tree, c: Id, p: Id)
    requires Valid(t) && c in t.status && p in t.status
    ensures var t' := Link(t, c, p);
            var up := {Unstarted, Starting, Running, Upgrading};
            var accepted := t.status[c] in up && t.status[p] in up && t.children[p].Some?;
            && Valid(t')
            && (!accepted ==> t' == t)
            && (forall d: Id :: SupervisorOf(t', d) == if d == c && accepted then Some(p) else SupervisorOf(t, d))
            && (forall q: Id :: Closed(t', q) <==> Closed(t, q))
            && t'.status == t.status
  {
    if Accepts(t, c, p) { AttachMeaning(t, c, p); }
  }

  /** Only the current supervisor can be unlinked, and it then is. */
  lemma UnlinkMeaning(t: Tree, c: Id, p: Id)
    requires Valid(t)
    ensures var t' := Unlink(t, c, p);
            && Valid(t')
            && (forall d: Id :: SupervisorOf(t', d) == if d == c && SupervisorOf(t, c) == Some(p) then None else SupervisorOf(t, d))
            && (forall q: Id :: Closed(t', q) <==> Closed(t, q))
            && t'.status == t.status
  {
    if SupervisorOf(t, c) == Some(p) {
      var t' := Unlink(t, c, p);
      forall q: Id ensures Kids(t', q) == Kids(t, q) - {c} {
        if c in Kids(t, q) { assert SupervisorOf(t, c) == Some(q); }
      }
      forall d: Id, q: Id ensures SupervisorOf(t', d) == Some(q) <==> d in Kids(t', q) {
        assert SupervisorOf(t, d) == Some(q) <==> d in Kids(t, q);
      }
    }
  }

  /** Taking the children closes exactly `p`'s child set and orphans exactly its children. */
  lemma TakeChildrenMeaning(t: Tree, p: Id)
    requires Valid(t) && p in t.children
    ensures var t' := TakeChildren(t, p);
            && Valid(t')
            && (forall d: Id :: SupervisorOf(t', d) == if d in Kids(t, p) then None else SupervisorOf(t, d))
            && (forall q: Id :: Closed(t', q) <==> q == p || Closed(t, q))
            && t'.status == t.status
  {
    var t' := TakeChildren(t, p);
    forall d: Id ensures SupervisorOf(t', d) == if d in Kids(t, p) then None else SupervisorOf(t, d) {
      if d in Kids(t, p) { assert SupervisorOf(t, d) == Some(p); }
    }
    forall q: Id ensures Kids(t', q) == if q == p then {} else Kids(t, q) {}
    forall d: Id, q: Id ensures SupervisorOf(t', d) == Some(q) <==> d in Kids(t', q) {
      assert SupervisorOf(t, d) == Some(q) <==> d in Kids(t, q);
      if d in Kids(t, p) && d in Kids(t, q) { assert SupervisorOf(t, d) == Some(p) && SupervisorOf(t, d) == Some(q); }
    }
  }

  /** A new cell is open, unstarted and on its own, and changes nothing about the others. */
  lemma NewCellMeaning(t: Tree, a: Id)
    requires Valid(t) && a !in t.children
    ensures var t' := NewCell(t, a);
            && Valid(t')
            && a in t'.status && t'.status[a] == Unstarted && Kids(t', a) == {} && SupervisorOf(t', a) == None
            && (forall d: Id :: SupervisorOf(t', d) == SupervisorOf(t, d))
            && (forall q: Id :: Closed(t', q) <==> Closed(t, q))
            && (forall b :: b in t.status ==> b in t'.status && t'.status[b] == t.status[b])
  {
    var t' := NewCell(t, a);
    forall d: Id, q: Id ensures SupervisorOf(t', d) == Some(q) <==> d in Kids(t', q) {
      assert SupervisorOf(t, d) == Some(q) <==> d in Kids(t, q);
    }
  }

  /** Hence no actor is ever in two child sets. */
  lemma OneChildSet(t: Tree, c: Id, p: Id, q: Id)
    requires Valid(t) && c in Kids(t, p) && c in Kids(t, q)
    ensures p == q
  {
    assert SupervisorOf(t, c) == Some(p) && SupervisorOf(t, c) == Some(q);
  }

  // ------------------------------------------------------------------ every run of the operations

  datatype Op =
    | Create(a: Id)                    // of an actor that does not exist yet
    | DoLink(c: Id, p: Id)
    | DoUnlink(c: Id, p: Id)
    | DoTake(p: Id)
    | Publish(a: Id, status: Status)   // a status advance; moving back is ignored

  function Apply(t: Tree, op: Op): Tree
  {
    match op
    case Create(a) => if a in t.children then t else NewCell(t, a)
    case DoLink(c, p) => if c in t.status && p in t.status then Link(t, c, p) else t
    case DoUnlink(c, p) => Unlink(t, c, p)
    case DoTake(p) => if p in t.children then TakeChildren(t, p) else t
    case Publish(a, status) =>
      if a in t.status && Rank(t.status[a]) < Rank(status) then t.(status := t.status[a := status]) else t
  }

  function ApplyAll(t: Tree, ops: seq<Op>): Tree
    decreases |ops|
  {
    if ops == [] then t else ApplyAll(Apply(t, ops[0]), ops[1..])
  }

  /** The actors that some operations create. */
  function Created(ops: seq<Op>): set<Id> { set op | op in ops && op.Create? :: op.a }

  lemma ApplyKeeps(t: Tree, op: Op)
    requires Valid(t)
    ensures Valid(Apply(t, op))
    ensures Apply(t, op).children.Keys == t.children.Keys + Created([op])
    ensures forall p: Id :: Closed(t, p) ==> Closed(Apply(t, op), p)
    ensures forall a :: a in t.status ==> a in Apply(t, op).status && Rank(t.status[a]) <= Rank(Apply(t, op).status[a])
  {
    match op
    case Create(a) => if a !in t.children { NewCellMeaning(t, a); }
    case DoLink(c, p) => if c in t.status && p in t.status { LinkMeaning(t, c, p); }
    case DoUnlink(c, p) => UnlinkMeaning(t, c, p);
    case DoTake(p) => if p in t.children { TakeChildrenMeaning(t, p); }
    case Publish(a, status) =>
      var t' := Apply(t, op);
      forall c: Id, p: Id ensures SupervisorOf(t', c) == Some(p) <==> c in Kids(t', p) {
        assert SupervisorOf(t, c) == Some(p) <==> c in Kids(t, p);
      }
  }

  /** In every run the two directions of the relation agree, and a closed child set stays closed. */
  lemma {:induction false} RunsKeep(t: Tree, ops: seq<Op>)
    requires Valid(t)
    ensures Valid(ApplyAll(t, ops))
    ensures ApplyAll(t, ops).children.Keys == t.children.Keys + Created(ops)
    ensures forall p: Id :: Closed(t, p) ==> Closed(ApplyAll(t, ops), p)
    decreases |ops|
  {
    if ops != [] {
      hide Valid, Apply, Closed;
      ApplyKeeps(t, ops[0]);
      RunsKeep(Apply(t, ops[0]), ops[1..]);
      assert Created(ops) == Created([ops[0]]) + Created(ops[1..]);
    }
  }
}
