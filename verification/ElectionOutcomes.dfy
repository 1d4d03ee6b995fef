/**
 What registering, authenticating and checking a connection come to, in every reachable state
 and in terms of which connections are authenticated and which of them beats which.
 */
module ElectionOutcomes {
  import opened Options
  import opened Election
  import opened ElectionNode

  // ------------------------------------------------------------------ the names and the election

  predicate Precedes(a: string, b: string, k: nat)
  {
    k <= |a| && k < |b| && a[..k] == b[..k] && (k == |a| || a[k] < b[k])
  }

  lemma FirstLetters(a: string, b: string, k: nat)
    requires Precedes(a, b, k)
    ensures b != [] && (a != [] && k > 0 ==> a[0] == b[0])
  {
    if k > 0 { assert a[..k][0] == b[..k][0]; }
  }

  /** Names are compared at the first place where they differ; a prefix comes first. */
  lemma {:induction false} CompareMeaning(a: string, b: string)
    ensures Compare(a, b) == Less <==> exists k: nat :: Precedes(a, b, k)
  {
    if a != [] && b != [] && a[0] == b[0] {
      CompareMeaning(a[1..], b[1..]);
      if k: nat :| Precedes(a[1..], b[1..], k) {
        assert a[..k + 1] == [a[0]] + a[1..][..k] && b[..k + 1] == [b[0]] + b[1..][..k];
        assert Precedes(a, b, k + 1);
      }
      if k: nat :| Precedes(a, b, k) {
        assert k != 0;
        assert a[1..][..k - 1] == a[..k][1..] && b[1..][..k - 1] == b[..k][1..];
        assert Precedes(a[1..], b[1..], k - 1);
      }
    } else {
      if Compare(a, b) == Less { assert Precedes(a, b, 0); }
      forall k: nat | Precedes(a, b, k) ensures Compare(a, b) == Less { FirstLetters(a, b, k); }
    }
  }

  /** A direction is given up only to the other: that of the node whose name sorts last. */
  predicate Favoured(me: string, peer: string, cs: set<Candidate>, c: Candidate)
  {
    || me == peer
    || c.isServer == (Compare(me, peer) == Less)
    || forall d :: d in cs ==> d.isServer == c.isServer
  }

  predicate Rival(me: string, peer: string, cs: set<Candidate>, c: Candidate, d: Candidate)
  {
    d in cs && Favoured(me, peer, cs, d) && d.nonce == c.nonce
  }

  /** Whatever the names, nonces and ids, and with or without nonces: elected are the candidates
      of the favoured direction with the least nonce, and among several accepted connections
      with the same nonce, or none at all, only the oldest. */
  lemma ElectMeaning(me: string, peer: string, cs: set<Candidate>, c: Candidate)
    ensures c in Elect(me, peer, cs) <==>
              && c in cs && Favoured(me, peer, cs, c)
              && (forall d :: d in cs && Favoured(me, peer, cs, d) && d.nonce.Some? ==> c.nonce.Some? && c.nonce.value <= d.nonce.value)
              && ((forall d :: Rival(me, peer, cs, c, d) ==> d.isServer) ==> forall d :: Rival(me, peer, cs, c, d) ==> c.id <= d.id)
  {
    var named := ByName(me, peer, cs);
    forall d ensures d in named <==> d in cs && Favoured(me, peer, cs, d) { NamedAreFavoured(me, peer, cs, d); }
    if |cs| <= 1 {
      if c in cs { AtMostOne(cs, c); }
    } else {
      hide Favoured, ByName;
      ElectedAmong(me, peer, cs, c, named);
    }
  }

  lemma NamedAreFavoured(me: string, peer: string, cs: set<Candidate>, c: Candidate)
    ensures c in ByName(me, peer, cs) <==> c in cs && Favoured(me, peer, cs, c)
  {
    CompareFlips(me, peer);
    if me != peer && c in cs && !Mixed(cs) {
      forall d | d in cs ensures d.isServer == c.isServer {}
    }
  }

  lemma ElectedAmong(me: string, peer: string, cs: set<Candidate>, c: Candidate, named: set<Candidate>)
    requires forall d :: d in named <==> d in cs && Favoured(me, peer, cs, d)
    ensures c in ByAge(ByNonce(named)) <==>
              && c in cs && Favoured(me, peer, cs, c)
              && (forall d :: d in cs && Favoured(me, peer, cs, d) && d.nonce.Some? ==> c.nonce.Some? && c.nonce.value <= d.nonce.value)
              && ((forall d :: Rival(me, peer, cs, c, d) ==> d.isServer) ==> forall d :: Rival(me, peer, cs, c, d) ==> c.id <= d.id)
  {
    hide Favoured;
    var first := ByNonce(named);
    if c in first {
      assert forall d :: d in first <==> Rival(me, peer, cs, c, d);
      if |first| <= 1 { AtMostOne(first, c); }
    }
  }

  // ------------------------------------------------------------------ one node

  /** This node's end of the connection of the node whose name sorts last. */
  predicate Prefers(n: Node, peer: string) { Compare(n.name, peer) == Less }

  ghost predicate Wins(n: Node, peer: string, atA: bool, c: Connection, d: Connection)
  {
    Beats(Prefers(n, peer), End(c, atA), End(d, atA))
  }

  lemma PrefersIs(n: Node, peer: string)
    requires n.name != peer
    ensures PreferServer(n.name, peer) == Some(Prefers(n, peer))
  {
    CompareFlips(n.name, peer);
  }

  /** Of two connections exactly one beats the other. */
  lemma OneWins(cs: set<Connection>, n: Node, peer: string, atA: bool, c: Connection, d: Connection)
    requires WellKnown(cs) && c in cs && d in cs && c != d
    ensures Wins(n, peer, atA, c, d) <==> !Wins(n, peer, atA, d, c)
    ensures End(c, atA) != End(d, atA)
  {
  }

  /** The standing connections, and the one that beats all others. */
  ghost predicate BeatsAll(n: Node, peer: string, atA: bool, standing: set<Connection>, c: Connection)
  {
    c in standing && forall d :: d in standing && d != c ==> Wins(n, peer, atA, c, d)
  }

  lemma ElectedBeatsAll(n: Node, cs: set<Connection>, atA: bool, peer: string, standing: set<Connection>, c: Connection)
    requires WellKnown(cs) && n.name != peer && standing <= cs && c in cs
    ensures End(c, atA).id in Ids(Elect(n.name, peer, Ends(standing, atA))) <==> BeatsAll(n, peer, atA, standing, c)
  {
    var ends := Ends(standing, atA);
    assert DistinctNonces(standing);
    EndsAreRegular(standing, atA);
    PrefersIs(n, peer);
    ElectedIsBest(n.name, peer, ends, End(c, atA));
    SomeoneSurvives(n.name, peer, ends);
    hide Elect;
    if End(c, atA).id in Ids(Elect(n.name, peer, ends)) {
      var x :| x in Elect(n.name, peer, ends) && x.id == End(c, atA).id;
      var d :| d in standing && End(d, atA) == x;
      assert d == c;
    }
    forall d | d in standing && d != c ensures End(d, atA) in ends && End(d, atA) != End(c, atA) {
      OneWins(cs, n, peer, atA, c, d);
    }
    assert c in standing ==> End(c, atA) in ends;
    assert End(c, atA) in ends ==> c in standing by {
      if End(c, atA) in ends { var d :| d in standing && End(d, atA) == End(c, atA); assert d == c; }
    }
  }

  /** The connections to the peer that a node has authenticated. */
  function AuthenticatedOf(n: Node, cs: set<Connection>, atA: bool): set<Connection>
  {
    set c | c in cs && Authenticated(n, c, atA)
  }

  lemma CandidatesAre(n: Node, cs: set<Connection>, atA: bool, peer: string)
    requires Faithful(n, cs, atA, peer)
    ensures Candidates(n, peer) == Ends(AuthenticatedOf(n, cs, atA), atA)
  {
    var ends := Ends(AuthenticatedOf(n, cs, atA), atA);
    forall x | x in Candidates(n, peer) ensures x in ends {
      assert IsPeer(n, x.id, peer);
      var c :| c in cs && End(c, atA).id == x.id;
      assert SessionOk(n, c, atA, peer);
      assert c in AuthenticatedOf(n, cs, atA);
    }
    forall x | x in ends ensures x in Candidates(n, peer) {
      var c :| c in AuthenticatedOf(n, cs, atA) && End(c, atA) == x;
      assert SessionOk(n, c, atA, peer);
      assert IsPeer(n, x.id, peer) && CandidateOf(n, x.id) == x;
    }
  }

  lemma EndsAdd(standing: set<Connection>, atA: bool, c: Connection)
    ensures Ends(standing + {c}, atA) == Ends(standing, atA) + {End(c, atA)}
  {
    var more := Ends(standing + {c}, atA);
    forall x | x in Ends(standing, atA) + {End(c, atA)} ensures x in more {
      if x == End(c, atA) { assert c in standing + {c}; } else { var d :| d in standing && End(d, atA) == x; assert d in standing + {c}; }
    }
  }

  /** How many there are besides one connection. */
  lemma OthersStand(cs: set<Connection>, atA: bool, standing: set<Connection>, c: Connection)
    requires WellKnown(cs) && standing <= cs && c in standing
    ensures |Ends(standing, atA)| > 1 <==> exists d :: d in standing && d != c
  {
    var ends := Ends(standing, atA);
    assert End(c, atA) in ends;
    if d :| d in standing && d != c {
      assert End(d, atA) in ends && End(d, atA).id != End(c, atA).id;
      assert {End(c, atA), End(d, atA)} <= ends;
      if |ends| <= 1 { AtMostOne(ends, End(c, atA)); }
    } else {
      assert ends == {End(c, atA)};
    }
  }

  /** The answer a registered connection gets to its check. */
  ghost predicate CheckIs(n: Node, cs: set<Connection>, atA: bool, peer: string, c: Connection)
  {
    var reply := Check(n, End(c, atA).id);
    && (reply == OtherConnectionContinues <==>
          exists d :: d in cs && d != c && Authenticated(n, d, atA) && Wins(n, peer, atA, d, c))
    && (reply == NoOtherConnection <==>
          forall d :: d in cs && d != c ==> !Authenticated(n, d, atA))
    && (reply == ThisConnectionContinues <==>
          && (exists d :: d in cs && d != c && Authenticated(n, d, atA))
          && (forall d :: d in cs && d != c && Authenticated(n, d, atA) ==> Wins(n, peer, atA, c, d)))
  }

  lemma CheckElects(n: Node, cs: set<Connection>, atA: bool, peer: string, c: Connection)
    requires WellKnown(cs) && NodeOk(n, cs, atA, peer) && c in cs && IsPeer(n, End(c, atA).id, peer)
    ensures var standing := AuthenticatedOf(n, cs, atA) + {c};
            Check(n, End(c, atA).id) ==
              if !BeatsAll(n, peer, atA, standing, c) then OtherConnectionContinues
              else if exists d :: d in standing && d != c then ThisConnectionContinues else NoOtherConnection
  {
    hide Elect, Ends, BeatsAll, WellKnown;
    var authenticated := AuthenticatedOf(n, cs, atA);
    CandidatesAre(n, cs, atA, peer);
    assert CandidateOf(n, End(c, atA).id) == End(c, atA) by { assert SessionOk(n, c, atA, peer); }
    EndsAdd(authenticated, atA, c);
    ElectedBeatsAll(n, cs, atA, peer, authenticated + {c}, c);
    OthersStand(cs, atA, authenticated + {c}, c);
  }

  lemma CheckAt(n: Node, cs: set<Connection>, atA: bool, peer: string, c: Connection)
    requires WellKnown(cs) && NodeOk(n, cs, atA, peer) && c in cs && IsPeer(n, End(c, atA).id, peer)
    ensures CheckIs(n, cs, atA, peer, c)
  {
    hide Check, Wins, WellKnown, NodeOk, Authenticated;
    var standing := AuthenticatedOf(n, cs, atA) + {c};
    CheckElects(n, cs, atA, peer, c);
    forall d | d in standing && d != c ensures Wins(n, peer, atA, c, d) <==> !Wins(n, peer, atA, d, c) {
      OneWins(cs, n, peer, atA, c, d);
    }
    assert forall d :: d in standing && d != c <==> d in cs && d != c && Authenticated(n, d, atA);
  }

  // ------------------------------------------------------------------ authenticating

  lemma CommitElects(n: Node, cs: set<Connection>, atA: bool, peer: string, c: Connection, d: Connection)
    requires WellKnown(cs) && NodeOk(n, cs, atA, peer) && c in cs && d in cs && IsPeer(n, End(c, atA).id, peer)
    ensures var standing := AuthenticatedOf(n, cs, atA) + {c};
            && (Authenticated(Commit(n, End(c, atA).id), d, atA) <==> BeatsAll(n, peer, atA, standing, d))
            && (End(d, atA).id in Losers(n, End(c, atA).id) <==> d in standing && !BeatsAll(n, peer, atA, standing, d))
  {
    hide Elect, Ends, BeatsAll, Candidates;
    var id := End(c, atA).id;
    var n1 := n.(authenticated := n.authenticated + {id});
    SubsetOk(n, cs, atA, peer, n.authenticated + {id});
    CandidatesAre(n1, cs, atA, peer);
    var standing := AuthenticatedOf(n, cs, atA) + {c};
    assert AuthenticatedOf(n1, cs, atA) == standing;
    ElectedBeatsAll(n, cs, atA, peer, standing, d);
    assert d in standing <==> End(d, atA).id in n.authenticated + {id};
    assert d in standing ==> IsPeer(n, End(d, atA).id, peer) by { assert SessionOk(n, d, atA, peer); }
    BestStands(n, peer, atA, standing, d);
  }

  lemma BestStands(n: Node, peer: string, atA: bool, standing: set<Connection>, d: Connection)
    ensures BeatsAll(n, peer, atA, standing, d) ==> d in standing
  {
  }

  // ------------------------------------------------------------------ every reachable state

  lemma Reachable(a: string, b: string, cs: set<Connection>, events: seq<Event>, atA: bool)
    requires a != b && WellKnown(cs) && cs != {}
    ensures var w := Run(Init(a, b), cs, events);
            NodeOk(At(w, atA), cs, atA, At(w, !atA).name)
  {
    var best := WinnerExists(a, b, cs);
    InitInv(a, b, cs, best);
    RunInv(Init(a, b), cs, events, best);
  }

  /** In every reachable state, a registered connection that checks is told that another continues
      just if some other authenticated connection beats it, that there is no other just if no
      other is authenticated, and that it continues itself just if others are and it beats them. */
  lemma CheckMeaning(a: string, b: string, cs: set<Connection>, events: seq<Event>, atA: bool, c: Connection)
    requires a != b && WellKnown(cs) && c in cs
    requires var w := Run(Init(a, b), cs, events);
             IsPeer(At(w, atA), End(c, atA).id, At(w, !atA).name)
    ensures var w := Run(Init(a, b), cs, events);
            CheckIs(At(w, atA), cs, atA, At(w, !atA).name, c)
  {
    hide CheckIs;
    Reachable(a, b, cs, events, atA);
    var w := Run(Init(a, b), cs, events);
    CheckAt(At(w, atA), cs, atA, At(w, !atA).name, c);
  }

  /** In every reachable state, when a registered connection authenticates, of it and those
      authenticated before exactly the one that beats all others is authenticated afterwards;
      the others of them are stopped, and nothing else is. */
  lemma CommitMeaning(a: string, b: string, cs: set<Connection>, events: seq<Event>, atA: bool, c: Connection, d: Connection)
    requires a != b && WellKnown(cs) && c in cs && d in cs
    requires var w := Run(Init(a, b), cs, events);
             IsPeer(At(w, atA), End(c, atA).id, At(w, !atA).name)
    ensures var w := Run(Init(a, b), cs, events);
            var w', n, peer := Next(w, cs, Authenticates(atA, c)), At(w, atA), At(w, !atA).name;
            var standing := set x | x in cs && (x == c || Authenticated(n, x, atA));
            && (Authenticated(At(w', atA), d, atA) <==> BeatsAll(n, peer, atA, standing, d))
            && (d in w'.stopped <==> d in w.stopped || (d in standing && !BeatsAll(n, peer, atA, standing, d)))
            && At(w', !atA) == At(w, !atA)
  {
    hide BeatsAll, Losers, Commit, WellKnown;
    Reachable(a, b, cs, events, atA);
    var w := Run(Init(a, b), cs, events);
    var n := At(w, atA);
    CommitElects(n, cs, atA, At(w, !atA).name, c, d);
    assert (set x | x in cs && (x == c || Authenticated(n, x, atA))) == AuthenticatedOf(n, cs, atA) + {c};
  }

  /** In every reachable state, a connection whose session is open and registers is from then on a
      session with the peer, with the direction and the nonce of the connection. */
  lemma RegisterMeaning(a: string, b: string, cs: set<Connection>, events: seq<Event>, atA: bool, c: Connection)
    requires a != b && WellKnown(cs) && c in cs && End(c, atA).id in At(Run(Init(a, b), cs, events), atA).sessions
    ensures var w := Run(Init(a, b), cs, events);
            var n := At(Next(w, cs, Registers(atA, c)), atA);
            IsPeer(n, End(c, atA).id, At(w, !atA).name) && CandidateOf(n, End(c, atA).id) == End(c, atA)
  {
    Reachable(a, b, cs, events, atA);
    var w := Run(Init(a, b), cs, events);
    assert SessionOk(At(w, atA), c, atA, At(w, !atA).name);
  }

  /** A nonce of zero counts as none, and no other session is touched. */
  lemma RegisterNonce(n: Node, id: Id, peer: string, nonce: nat, other: Id)
    requires id in n.sessions && other in n.sessions
    ensures var n' := Register(n, id, peer, nonce);
            && n'.sessions.Keys == n.sessions.Keys && IsPeer(n', id, peer)
            && (nonce > 0 <==> CandidateOf(n', id).nonce == Some(nonce)) && (nonce == 0 <==> CandidateOf(n', id).nonce.None?)
            && (other != id ==> n'.sessions[other] == n.sessions[other] && CandidateOf(n', other) == CandidateOf(n, other))
  {
  }
}
