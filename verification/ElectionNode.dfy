/**
 The node server's view of its sessions, and two nodes that authenticate the connections
 between them in any order, each stopping the connections it finds to have lost.
 */
module ElectionNode {
  import opened Options
  import opened Election

  /** A session learns its peer's name when it is registered. */
  datatype Session = Session(isServer: bool, peer: Option<string>)

  datatype Node = Node(name: string, sessions: map<Id, Session>, nonces: map<Id, Option<nat>>, authenticated: set<Id>)

  function CandidateOf(n: Node, id: Id): Candidate
    requires id in n.sessions
  {
    Candidate(id, n.sessions[id].isServer, if id in n.nonces then n.nonces[id] else None)
  }

  predicate IsPeer(n: Node, id: Id, peer: string)
  {
    id in n.sessions && n.sessions[id].peer == Some(peer)
  }

  /** The authenticated sessions with a peer. */
  function Candidates(n: Node, peer: string): set<Candidate>
  {
    set id | id in n.sessions && IsPeer(n, id, peer) && id in n.authenticated :: CandidateOf(n, id)
  }

  function Ids(cs: set<Candidate>): set<Id> { set c | c in cs :: c.id }

  function Open(n: Node, id: Id, isServer: bool): Node
  {
    n.(sessions := n.sessions[id := Session(isServer, None)])
  }

  /** A nonce of zero is no nonce. */
  function Register(n: Node, id: Id, peer: string, nonce: nat): Node
  {
    if id !in n.sessions then n
    else n.(sessions := n.sessions[id := n.sessions[id].(peer := Some(peer))],
            nonces := n.nonces[id := if nonce == 0 then None else Some(nonce)])
  }

  /** The sessions that an authentication turns out to have lost. */
  ghost function Losers(n: Node, id: Id): set<Id>
    requires id in n.sessions && n.sessions[id].peer.Some?
  {
    var peer, auth := n.sessions[id].peer.value, n.authenticated + {id};
    var elected := Ids(Elect(n.name, peer, Candidates(n.(authenticated := auth), peer)));
    set i | i in auth && IsPeer(n, i, peer) && i !in elected
  }

  ghost function Commit(n: Node, id: Id): Node
  {
    if id !in n.sessions || n.sessions[id].peer.None? then n
    else n.(authenticated := n.authenticated + {id} - Losers(n, id))
  }

  datatype Reply = NoOtherConnection | ThisConnectionContinues | OtherConnectionContinues

  ghost function Check(n: Node, id: Id): Reply
  {
    if id !in n.sessions || n.sessions[id].peer.None? then OtherConnectionContinues
    else
      var peer := n.sessions[id].peer.value;
      var cs := Candidates(n, peer) + {CandidateOf(n, id)};
      if id !in Ids(Elect(n.name, peer, cs)) then OtherConnectionContinues
      else if |cs| > 1 then ThisConnectionContinues else NoOtherConnection
  }

  ghost predicate IsElected(n: Node, id: Id)
  {
    id in n.authenticated && id in n.sessions && n.sessions[id].peer.Some?
    && id in Ids(Elect(n.name, n.sessions[id].peer.value, Candidates(n, n.sessions[id].peer.value)))
  }

  function Ended(n: Node, id: Id): Node
  {
    if id !in n.sessions then n
    else n.(sessions := n.sessions - {id}, nonces := n.nonces - {id}, authenticated := n.authenticated - {id})
  }

  // ------------------------------------------------------------------ one node and the connections to one peer

  /** The connections between the two nodes: their nonces, and their session ids at either end,
      tell them apart, and no nonce is zero. */
  predicate WellKnown(cs: set<Connection>)
  {
    && DistinctNonces(cs)
    && (forall c :: c in cs ==> c.nonce != 0)
    && (forall c, d, atA :: c in cs && d in cs && End(c, atA).id == End(d, atA).id ==> c == d)
  }

  function EndIds(cs: set<Connection>, atA: bool): set<Id> { set c | c in cs :: End(c, atA).id }

  /** What the node knows of the session of a connection is true of it. */
  predicate SessionOk(n: Node, c: Connection, atA: bool, peer: string)
  {
    var end := End(c, atA);
    end.id in n.sessions ==>
      && n.sessions[end.id].isServer == end.isServer
      && (n.sessions[end.id].peer.Some? ==> n.sessions[end.id].peer == Some(peer) && CandidateOf(n, end.id) == end)
  }

  ghost predicate Faithful(n: Node, cs: set<Connection>, atA: bool, peer: string)
  {
    && (forall c :: c in cs ==> SessionOk(n, c, atA, peer))
    && (forall id :: IsPeer(n, id, peer) ==> id in EndIds(cs, atA))
    && (forall id :: id in n.authenticated ==> id in n.sessions && n.sessions[id].peer.Some?)
  }

  predicate Authenticated(n: Node, c: Connection, atA: bool) { End(c, atA).id in n.authenticated }

  /** At most one connection to the peer is authenticated. */
  ghost predicate NodeOk(n: Node, cs: set<Connection>, atA: bool, peer: string)
  {
    && n.name != peer
    && Faithful(n, cs, atA, peer)
    && (forall c, d :: c in cs && d in cs && Authenticated(n, c, atA) && Authenticated(n, d, atA) ==> c == d)
  }

  /** The connection that beats all others, seen from one end. */
  ghost predicate Winner(cs: set<Connection>, atA: bool, me: string, peer: string, w: Connection)
  {
    w in cs && End(w, atA) in Elect(me, peer, Ends(cs, atA))
  }

  lemma CandidatesAreEnds(n: Node, cs: set<Connection>, atA: bool, peer: string)
    requires Faithful(n, cs, atA, peer)
    ensures Candidates(n, peer) <= Ends(cs, atA)
  {
    forall x | x in Candidates(n, peer) ensures x in Ends(cs, atA) {
      assert IsPeer(n, x.id, peer);
      var c :| c in cs && End(c, atA).id == x.id;
      assert SessionOk(n, c, atA, peer);
      assert End(c, atA) in Ends(cs, atA);
    }
  }

  /** The best of all connections is elected from any of them. */
  lemma WinnerIsElected(cs: set<Connection>, atA: bool, me: string, peer: string, w: Connection, some: set<Candidate>)
    requires me != peer && DistinctNonces(cs) && Winner(cs, atA, me, peer, w)
    requires some <= Ends(cs, atA) && End(w, atA) in some
    ensures Elect(me, peer, some) == {End(w, atA)}
  {
    EndsAreRegular(cs, atA);
    ElectedIsBest(me, peer, Ends(cs, atA), End(w, atA));
    assert Regular(some);
    ElectedIsBest(me, peer, some, End(w, atA));
    ExactlyOne(me, peer, some, End(w, atA));
  }

  /** The candidates, once `c` is authenticated too. */
  ghost function Standing(n: Node, atA: bool, peer: string, c: Connection): set<Candidate>
  {
    Candidates(n.(authenticated := n.authenticated + {End(c, atA).id}), peer)
  }

  lemma CommitCandidates(n: Node, cs: set<Connection>, atA: bool, peer: string, c: Connection)
    requires WellKnown(cs) && NodeOk(n, cs, atA, peer) && c in cs && IsPeer(n, End(c, atA).id, peer)
    ensures Standing(n, atA, peer, c) <= Ends(cs, atA) && End(c, atA) in Standing(n, atA, peer, c)
    ensures forall d :: d in cs && Authenticated(n, d, atA) ==> End(d, atA) in Standing(n, atA, peer, c)
  {
    var n1 := n.(authenticated := n.authenticated + {End(c, atA).id});
    assert forall d :: d in cs ==> SessionOk(n, d, atA, peer) && SessionOk(n1, d, atA, peer);
    assert forall id :: IsPeer(n1, id, peer) ==> IsPeer(n, id, peer);
    CandidatesAreEnds(n1, cs, atA, peer);
    forall d | d in cs && (d == c || Authenticated(n, d, atA)) ensures End(d, atA) in Candidates(n1, peer) {
      assert IsPeer(n1, End(d, atA).id, peer);
      assert CandidateOf(n1, End(d, atA).id) == End(d, atA);
    }
  }

  /** Exactly one of some connections survives: the best, if it stands. */
  lemma OneSurvives(cs: set<Connection>, atA: bool, me: string, peer: string, some: set<Candidate>, w: Connection) returns (x: Candidate)
    requires me != peer && DistinctNonces(cs) && Winner(cs, atA, me, peer, w)
    requires some <= Ends(cs, atA) && some != {}
    ensures Ids(Elect(me, peer, some)) == {x.id}
    ensures End(w, atA) in some ==> x == End(w, atA)
  {
    EndsAreRegular(cs, atA);
    assert Regular(some);
    SomeoneSurvives(me, peer, some);
    hide Elect, Winner, Ends;
    x :| x in Elect(me, peer, some);
    ExactlyOne(me, peer, some, x);
    if End(w, atA) in some { WinnerIsElected(cs, atA, me, peer, w, some); }
  }

  lemma WinnerIsOne(cs: set<Connection>, atA: bool, me: string, peer: string, w: Connection)
    requires Winner(cs, atA, me, peer, w)
    ensures w in cs
  {
  }

  lemma SubsetOk(n: Node, cs: set<Connection>, atA: bool, peer: string, auth: set<Id>)
    requires Faithful(n, cs, atA, peer) && forall id :: id in auth ==> id in n.sessions && n.sessions[id].peer.Some?
    ensures Faithful(n.(authenticated := auth), cs, atA, peer)
  {
    var n' := n.(authenticated := auth);
    assert forall c :: c in cs ==> SessionOk(n, c, atA, peer) && SessionOk(n', c, atA, peer);
    assert forall id :: IsPeer(n', id, peer) ==> IsPeer(n, id, peer);
  }

  /** One connection is left; it is the best if the best was among those authenticated. */
  lemma CommitKeepsOne(n: Node, cs: set<Connection>, atA: bool, peer: string, c: Connection, w: Connection)
    requires WellKnown(cs) && NodeOk(n, cs, atA, peer) && c in cs && IsPeer(n, End(c, atA).id, peer)
    requires Winner(cs, atA, n.name, peer, w)
    ensures NodeOk(Commit(n, End(c, atA).id), cs, atA, peer)
    ensures w == c || Authenticated(n, w, atA) ==> Authenticated(Commit(n, End(c, atA).id), w, atA)
    ensures w == c || Authenticated(n, w, atA) ==> End(w, atA).id !in Losers(n, End(c, atA).id)
  {
    hide Elect, Winner, Candidates;
    var id := End(c, atA).id;
    CommitCandidates(n, cs, atA, peer, c);
    var x := OneSurvives(cs, atA, n.name, peer, Standing(n, atA, peer, c), w);
    var losers := Losers(n, id);
    assert forall i :: i in losers <==> i in n.authenticated + {id} && IsPeer(n, i, peer) && i != x.id;
    assert w in cs by { WinnerIsOne(cs, atA, n.name, peer, w); }
    hide Losers;
    SubsetOk(n, cs, atA, peer, n.authenticated + {id} - losers);
    var n' := Commit(n, id);
    forall d | d in cs && Authenticated(n', d, atA) ensures End(d, atA).id == x.id {
      assert SessionOk(n, d, atA, peer);
      assert IsPeer(n, End(d, atA).id, peer);
    }
  }

  /** The best connection is told to continue, whoever is authenticated already. */
  lemma WinnerIsNotRejected(n: Node, cs: set<Connection>, atA: bool, peer: string, w: Connection)
    requires WellKnown(cs) && NodeOk(n, cs, atA, peer) && Winner(cs, atA, n.name, peer, w)
    requires IsPeer(n, End(w, atA).id, peer)
    ensures Check(n, End(w, atA).id) != OtherConnectionContinues
  {
    var id := End(w, atA).id;
    CandidatesAreEnds(n, cs, atA, peer);
    assert SessionOk(n, w, atA, peer);
    var some := Candidates(n, peer) + {CandidateOf(n, id)};
    assert End(w, atA) in Ends(cs, atA);
    WinnerIsElected(cs, atA, n.name, peer, w, some);
    assert End(w, atA) in Elect(n.name, peer, some);
  }

  // ------------------------------------------------------------------ two nodes

  datatype World = World(a: Node, b: Node, stopped: set<Connection>)

  datatype Event =
    | Opens(atA: bool, c: Connection)
    | Registers(atA: bool, c: Connection)           // both ends register the nonce of the connection
    | Authenticates(atA: bool, c: Connection)       // losers are stopped
    | Checks(atA: bool, c: Connection)              // a connection that is told not to continue stops
    | Closes(atA: bool, c: Connection)              // a session ends: stopped, failed or dropped by its peer
    | OtherOpens(atA: bool, id: Id, isServer: bool) // sessions with other peers, or none
    | OtherRegisters(atA: bool, id: Id, name: string, nonce: nat)
    | OtherAuthenticates(atA: bool, id: Id)
    | OtherEnds(atA: bool, id: Id)

  function At(w: World, atA: bool): Node { if atA then w.a else w.b }
  function SetAt(w: World, atA: bool, n: Node): World { if atA then w.(a := n) else w.(b := n) }

  predicate Outsider(cs: set<Connection>, atA: bool, id: Id) { id !in EndIds(cs, atA) }

  ghost function Next(w: World, cs: set<Connection>, e: Event): World
  {
    var n, peer := At(w, e.atA), At(w, !e.atA).name;
    match e
    case Opens(atA, c) =>
      if c in cs && End(c, atA).id !in n.sessions && End(c, atA).id !in n.authenticated
      then SetAt(w, atA, Open(n, End(c, atA).id, End(c, atA).isServer)) else w
    case Registers(atA, c) => if c in cs then SetAt(w, atA, Register(n, End(c, atA).id, peer, c.nonce)) else w
    case Authenticates(atA, c) =>
      if c in cs && IsPeer(n, End(c, atA).id, peer) then
        SetAt(w, atA, Commit(n, End(c, atA).id)).(stopped := w.stopped + LosersAmong(cs, atA, Losers(n, End(c, atA).id)))
      else w
    case Checks(atA, c) =>
      if c in cs && IsPeer(n, End(c, atA).id, peer) && Check(n, End(c, atA).id) == OtherConnectionContinues
      then w.(stopped := w.stopped + {c}) else w
    case Closes(atA, c) => if c in cs then SetAt(w, atA, Ended(n, End(c, atA).id)) else w
    case OtherOpens(atA, id, isServer) =>
      if Outsider(cs, atA, id) && id !in n.sessions && id !in n.authenticated then SetAt(w, atA, Open(n, id, isServer)) else w
    case OtherRegisters(atA, id, name, nonce) =>
      if Outsider(cs, atA, id) && name != peer then SetAt(w, atA, Register(n, id, name, nonce)) else w
    case OtherAuthenticates(atA, id) => if Outsider(cs, atA, id) then SetAt(w, atA, Commit(n, id)) else w
    case OtherEnds(atA, id) => if Outsider(cs, atA, id) then SetAt(w, atA, Ended(n, id)) else w
  }

  function LosersAmong(cs: set<Connection>, atA: bool, losers: set<Id>): set<Connection>
  {
    set c | c in cs && End(c, atA).id in losers
  }

  ghost function Run(w: World, cs: set<Connection>, events: seq<Event>): World
    decreases |events|
  {
    if events == [] then w else Run(Next(w, cs, events[0]), cs, events[1..])
  }

  function Init(a: string, b: string): World
  {
    World(Node(a, map[], map[], {}), Node(b, map[], map[], {}), {})
  }

  ghost predicate Inv(w: World, cs: set<Connection>, best: Connection)
  {
    && NodeOk(w.a, cs, true, w.b.name)
    && NodeOk(w.b, cs, false, w.a.name)
    && best !in w.stopped
  }

  lemma OpenOk(n: Node, cs: set<Connection>, atA: bool, peer: string, id: Id, isServer: bool)
    requires WellKnown(cs) && NodeOk(n, cs, atA, peer) && id !in n.sessions
    requires forall c :: c in cs && End(c, atA).id == id ==> End(c, atA).isServer == isServer
    ensures NodeOk(Open(n, id, isServer), cs, atA, peer)
  {
    var n' := Open(n, id, isServer);
    forall c | c in cs ensures SessionOk(n', c, atA, peer) { assert SessionOk(n, c, atA, peer); }
    forall i | IsPeer(n', i, peer) ensures i in EndIds(cs, atA) { assert IsPeer(n, i, peer); }
  }

  lemma RegisterOk(n: Node, cs: set<Connection>, atA: bool, peer: string, id: Id, name: string, nonce: nat)
    requires WellKnown(cs) && NodeOk(n, cs, atA, peer)
    requires forall c :: c in cs && End(c, atA).id == id ==> name == peer && nonce == c.nonce
    requires name == peer ==> id in EndIds(cs, atA)
    ensures NodeOk(Register(n, id, name, nonce), cs, atA, peer)
  {
    var n' := Register(n, id, name, nonce);
    forall c | c in cs ensures SessionOk(n', c, atA, peer) { assert SessionOk(n, c, atA, peer); }
    forall i | IsPeer(n', i, peer) ensures i in EndIds(cs, atA) { assert i == id || IsPeer(n, i, peer); }
  }

  lemma EndedOk(n: Node, cs: set<Connection>, atA: bool, peer: string, id: Id)
    requires WellKnown(cs) && NodeOk(n, cs, atA, peer)
    ensures NodeOk(Ended(n, id), cs, atA, peer)
  {
    var n' := Ended(n, id);
    forall c | c in cs ensures SessionOk(n', c, atA, peer) { assert SessionOk(n, c, atA, peer); }
    forall i | IsPeer(n', i, peer) ensures i in EndIds(cs, atA) { assert IsPeer(n, i, peer); }
  }

  lemma LosersArePeers(n: Node, id: Id)
    requires id in n.sessions && n.sessions[id].peer.Some?
    ensures forall i :: i in Losers(n, id) ==> IsPeer(n, i, n.sessions[id].peer.value)
  {
  }

  lemma OtherCommitOk(n: Node, cs: set<Connection>, atA: bool, peer: string, id: Id)
    requires WellKnown(cs) && NodeOk(n, cs, atA, peer) && Outsider(cs, atA, id)
    ensures NodeOk(Commit(n, id), cs, atA, peer)
    ensures forall c :: c in cs ==> (Authenticated(Commit(n, id), c, atA) <==> Authenticated(n, c, atA))
  {
    hide Losers, WellKnown, Elect;
    if id in n.sessions && n.sessions[id].peer.Some? {
      var other, losers := n.sessions[id].peer.value, Losers(n, id);
      assert !IsPeer(n, id, peer);
      LosersArePeers(n, id);
      SubsetOk(n, cs, atA, peer, n.authenticated + {id} - losers);
      forall c | c in cs && Authenticated(n, c, atA) ensures End(c, atA).id !in losers { assert SessionOk(n, c, atA, peer); }
      forall c | c in cs ensures End(c, atA).id != id { assert End(c, atA).id in EndIds(cs, atA); }
    }
  }

  ghost predicate Setting(w: World, cs: set<Connection>, best: Connection)
  {
    && WellKnown(cs)
    && Winner(cs, true, w.a.name, w.b.name, best)
    && Winner(cs, false, w.b.name, w.a.name, best)
  }

  /** A step at one node: the node stays in order, and the best connection, once authenticated
      there, stays so and is not stopped. */
  lemma NextAt(w: World, cs: set<Connection>, e: Event, best: Connection)
    requires Setting(w, cs, best) && Inv(w, cs, best)
    ensures NodeOk(At(Next(w, cs, e), e.atA), cs, e.atA, At(w, !e.atA).name)
    ensures At(Next(w, cs, e), e.atA).name == At(w, e.atA).name && At(Next(w, cs, e), !e.atA) == At(w, !e.atA)
    ensures best !in Next(w, cs, e).stopped
    ensures !(e.Closes? && e.c == best) && Authenticated(At(w, e.atA), best, e.atA) ==>
              Authenticated(At(Next(w, cs, e), e.atA), best, e.atA)
  {
    var n, peer, atA := At(w, e.atA), At(w, !e.atA).name, e.atA;
    assert NodeOk(n, cs, atA, peer) && Winner(cs, atA, n.name, peer, best);
    hide NodeOk, Winner, Commit, Losers, Elect, Check;
    match e
    case Opens(_, c) =>
      if c in cs && End(c, atA).id !in n.sessions && End(c, atA).id !in n.authenticated {
        OpenOk(n, cs, atA, peer, End(c, atA).id, End(c, atA).isServer);
      }
    case Registers(_, c) => if c in cs { RegisterOk(n, cs, atA, peer, End(c, atA).id, peer, c.nonce); }
    case Authenticates(_, c) =>
      if c in cs && IsPeer(n, End(c, atA).id, peer) { AuthenticatesAt(n, cs, atA, peer, c, best); }
    case Checks(_, c) =>
      if c == best && IsPeer(n, End(c, atA).id, peer) { WinnerIsNotRejected(n, cs, atA, peer, best); }
    case Closes(_, c) => EndedOk(n, cs, atA, peer, End(c, atA).id); EndsApart(cs, best, c);
    case _ => OtherAt(w, cs, e, best);
  }

  lemma OtherAt(w: World, cs: set<Connection>, e: Event, best: Connection)
    requires Setting(w, cs, best) && Inv(w, cs, best) && (e.OtherOpens? || e.OtherRegisters? || e.OtherAuthenticates? || e.OtherEnds?)
    ensures NodeOk(At(Next(w, cs, e), e.atA), cs, e.atA, At(w, !e.atA).name)
    ensures At(Next(w, cs, e), e.atA).name == At(w, e.atA).name && At(Next(w, cs, e), !e.atA) == At(w, !e.atA)
    ensures best !in Next(w, cs, e).stopped
    ensures Authenticated(At(w, e.atA), best, e.atA) ==> Authenticated(At(Next(w, cs, e), e.atA), best, e.atA)
  {
    var n, peer, atA := At(w, e.atA), At(w, !e.atA).name, e.atA;
    assert NodeOk(n, cs, atA, peer);
    InSetting(w, cs, best);
    hide NodeOk, Winner, Commit, Losers, Elect, Check;
    match e
    case OtherOpens(_, id, isServer) =>
      if Outsider(cs, atA, id) && id !in n.sessions && id !in n.authenticated {
        OutsiderEnds(cs, atA, id);
        OpenOk(n, cs, atA, peer, id, isServer);
      }
    case OtherRegisters(_, id, name, nonce) =>
      if Outsider(cs, atA, id) && name != peer {
        OutsiderEnds(cs, atA, id);
        RegisterOk(n, cs, atA, peer, id, name, nonce);
      }
    case OtherAuthenticates(_, id) => if Outsider(cs, atA, id) { OtherCommitOk(n, cs, atA, peer, id); }
    case OtherEnds(_, id) => OutsiderEnds(cs, atA, id); EndedOk(n, cs, atA, peer, id);
  }

  lemma AuthenticatesAt(n: Node, cs: set<Connection>, atA: bool, peer: string, c: Connection, w: Connection)
    requires WellKnown(cs) && NodeOk(n, cs, atA, peer) && c in cs && IsPeer(n, End(c, atA).id, peer)
    requires Winner(cs, atA, n.name, peer, w)
    ensures NodeOk(Commit(n, End(c, atA).id), cs, atA, peer)
    ensures w == c || Authenticated(n, w, atA) ==> Authenticated(Commit(n, End(c, atA).id), w, atA)
    ensures w !in LosersAmong(cs, atA, Losers(n, End(c, atA).id))
  {
    CommitKeepsOne(n, cs, atA, peer, c, w);
  }

  lemma OutsiderEnds(cs: set<Connection>, atA: bool, id: Id)
    ensures Outsider(cs, atA, id) ==> forall c :: c in cs ==> End(c, atA).id != id
  {
    if Outsider(cs, atA, id) {
      forall c | c in cs ensures End(c, atA).id != id { assert End(c, atA).id in EndIds(cs, atA); }
    }
  }

  lemma EndsApart(cs: set<Connection>, c: Connection, d: Connection)
    requires WellKnown(cs)
    ensures c in cs && d in cs && c != d ==> End(c, true).id != End(d, true).id && End(c, false).id != End(d, false).id
  {
  }

  lemma InSetting(w: World, cs: set<Connection>, best: Connection)
    requires Setting(w, cs, best)
    ensures best in cs
  {
  }

  lemma NextInv(w: World, cs: set<Connection>, e: Event, best: Connection)
    requires Setting(w, cs, best) && Inv(w, cs, best)
    ensures Setting(Next(w, cs, e), cs, best) && Inv(Next(w, cs, e), cs, best)
    ensures !(e.Closes? && e.c == best) && Authenticated(w.a, best, true) ==> Authenticated(Next(w, cs, e).a, best, true)
    ensures !(e.Closes? && e.c == best) && Authenticated(w.b, best, false) ==> Authenticated(Next(w, cs, e).b, best, false)
  {
    hide Next, NodeOk, Winner, WellKnown;
    NextAt(w, cs, e, best);
  }

  lemma {:induction false} RunInv(w: World, cs: set<Connection>, events: seq<Event>, best: Connection)
    requires Setting(w, cs, best) && Inv(w, cs, best)
    ensures Setting(Run(w, cs, events), cs, best) && Inv(Run(w, cs, events), cs, best)
    decreases |events|
  {
    hide Next, Setting, Inv;
    if events != [] {
      NextInv(w, cs, events[0], best);
      RunInv(Next(w, cs, events[0]), cs, events[1..], best);
    }
  }

  /** The connection does not end in the run, at either end. */
  predicate Lasts(events: seq<Event>, c: Connection)
  {
    forall i :: 0 <= i < |events| && events[i].Closes? ==> events[i].c != c
  }

  lemma {:induction false} RunKeeps(w: World, cs: set<Connection>, events: seq<Event>, best: Connection)
    requires Setting(w, cs, best) && Inv(w, cs, best) && Lasts(events, best)
    ensures Authenticated(w.a, best, true) ==> Authenticated(Run(w, cs, events).a, best, true)
    ensures Authenticated(w.b, best, false) ==> Authenticated(Run(w, cs, events).b, best, false)
    decreases |events|
  {
    hide Next, Setting, Inv, Authenticated;
    if events != [] {
      assert Lasts(events[1..], best);
      NextInv(w, cs, events[0], best);
      RunKeeps(Next(w, cs, events[0]), cs, events[1..], best);
    }
  }

  lemma InitInv(a: string, b: string, cs: set<Connection>, best: Connection)
    requires a != b && WellKnown(cs) && Winner(cs, true, a, b, best)
    ensures Setting(Init(a, b), cs, best) && Inv(Init(a, b), cs, best)
  {
    hide Elect, Ends;
    BothNodesAgree(a, b, cs, best);
  }

  /** Of any connections between two nodes one is the best. */
  lemma WinnerExists(a: string, b: string, cs: set<Connection>) returns (best: Connection)
    requires cs != {}
    ensures Winner(cs, true, a, b, best)
  {
    var c :| c in cs;
    assert End(c, true) in Ends(cs, true);
    SomeoneSurvives(a, b, Ends(cs, true));
    var x :| x in Elect(a, b, Ends(cs, true));
    best :| best in cs && End(best, true) == x;
  }

  /** In every run, whatever the order in which the two nodes authenticate and check their
      connections and in which these end: the best connection is never stopped by either node. */
  lemma BestIsNeverStopped(a: string, b: string, cs: set<Connection>, events: seq<Event>, best: Connection)
    requires a != b && WellKnown(cs) && Winner(cs, true, a, b, best)
    ensures best !in Run(Init(a, b), cs, events).stopped
  {
    InitInv(a, b, cs, best);
    RunInv(Init(a, b), cs, events, best);
  }

  /** In every reachable state at most one connection is authenticated on either node. */
  lemma AtMostOneAuthenticated(a: string, b: string, cs: set<Connection>, events: seq<Event>, atA: bool, c: Connection, d: Connection)
    requires a != b && WellKnown(cs) && c in cs && d in cs
    requires Authenticated(At(Run(Init(a, b), cs, events), atA), c, atA)
    requires Authenticated(At(Run(Init(a, b), cs, events), atA), d, atA)
    ensures c == d
  {
    var best := WinnerExists(a, b, cs);
    InitInv(a, b, cs, best);
    RunInv(Init(a, b), cs, events, best);
  }

  /** Once both have authenticated the best connection, it is the only one authenticated on
      either for as long as it lasts, */
  lemma BothKeepTheSameConnection(a: string, b: string, cs: set<Connection>, events: seq<Event>, more: seq<Event>,
                                  best: Connection, c: Connection)
    requires a != b && WellKnown(cs) && Winner(cs, true, a, b, best) && c in cs && Lasts(more, best)
    requires Authenticated(Run(Init(a, b), cs, events).a, best, true)
    requires Authenticated(Run(Init(a, b), cs, events).b, best, false)
    ensures var w := Run(Run(Init(a, b), cs, events), cs, more);
            && (Authenticated(w.a, c, true) <==> c == best)
            && (Authenticated(w.b, c, false) <==> c == best)
  {
    InitInv(a, b, cs, best);
    RunInv(Init(a, b), cs, events, best);
    RunKeeps(Run(Init(a, b), cs, events), cs, more, best);
    RunInv(Run(Init(a, b), cs, events), cs, more, best);
  }

  /** and no longer: where a connection ends it is not authenticated any more, the other node
      being as before. */
  lemma EndingForgets(a: string, b: string, cs: set<Connection>, events: seq<Event>, atA: bool, c: Connection)
    requires a != b && WellKnown(cs) && c in cs
    ensures var w := Run(Init(a, b), cs, events);
            var w' := Next(w, cs, Closes(atA, c));
            !Authenticated(At(w', atA), c, atA) && At(w', !atA) == At(w, !atA)
  {
    var best := WinnerExists(a, b, cs);
    InitInv(a, b, cs, best);
    RunInv(Init(a, b), cs, events, best);
  }

  /** A registered connection that authenticates is authenticated, if it is the best. */
  lemma BestGetsAuthenticated(a: string, b: string, cs: set<Connection>, events: seq<Event>, atA: bool, best: Connection)
    requires a != b && WellKnown(cs) && Winner(cs, true, a, b, best)
    requires IsPeer(At(Run(Init(a, b), cs, events), atA), End(best, atA).id, At(Run(Init(a, b), cs, events), !atA).name)
    ensures Authenticated(At(Next(Run(Init(a, b), cs, events), cs, Authenticates(atA, best)), atA), best, atA)
  {
    InitInv(a, b, cs, best);
    RunInv(Init(a, b), cs, events, best);
    var w := Run(Init(a, b), cs, events);
    AuthenticatesAt(At(w, atA), cs, atA, At(w, !atA).name, best, best);
  }

  /** A connection reports ready exactly if it is authenticated: between commits the elected and
      the authenticated are the same. */
  lemma ReadyIffAuthenticated(a: string, b: string, cs: set<Connection>, events: seq<Event>, atA: bool, best: Connection, c: Connection)
    requires a != b && WellKnown(cs) && Winner(cs, true, a, b, best) && c in cs
    ensures var n := At(Run(Init(a, b), cs, events), atA);
            IsElected(n, End(c, atA).id) <==> Authenticated(n, c, atA)
  {
    InitInv(a, b, cs, best);
    RunInv(Init(a, b), cs, events, best);
    var w := Run(Init(a, b), cs, events);
    AloneIsElected(At(w, atA), cs, atA, At(w, !atA).name, c);
  }

  lemma AloneIsElected(n: Node, cs: set<Connection>, atA: bool, peer: string, c: Connection)
    requires WellKnown(cs) && NodeOk(n, cs, atA, peer) && c in cs
    ensures IsElected(n, End(c, atA).id) <==> Authenticated(n, c, atA)
  {
    if Authenticated(n, c, atA) {
      var end := End(c, atA);
      assert SessionOk(n, c, atA, peer);
      CandidatesAreEnds(n, cs, atA, peer);
      assert IsPeer(n, end.id, peer);
      forall x | x in Candidates(n, peer) ensures x == end {
        var d :| d in cs && End(d, atA) == x;
        assert Authenticated(n, d, atA);
      }
      assert CandidateOf(n, end.id) == end;
      assert Candidates(n, peer) == {end};
      assert end in Elect(n.name, peer, Candidates(n, peer));
    }
  }
}
