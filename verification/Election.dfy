/**
 Which of several connections between two nodes survives. Each node elects on its own, among
 the connections it has authenticated so far; both must end up with the same one.
 */
module Election {
  import opened Options

  type Id = nat

  // ------------------------------------------------------------------ names

  datatype Ordering = Less | Equal | Greater

  function Flip(o: Ordering): Ordering { match o case Less => Greater case Equal => Equal case Greater => Less }

  /** Lexicographic order. */
  function Compare(a: string, b: string): Ordering
  {
    if a == [] && b == [] then Equal
    else if a == [] then Less
    else if b == [] then Greater
    else if a[0] < b[0] then Less
    else if a[0] > b[0] then Greater
    else Compare(a[1..], b[1..])
  }

  lemma {:induction false} CompareFlips(a: string, b: string)
    ensures Compare(b, a) == Flip(Compare(a, b))
    ensures Compare(a, b) == Equal <==> a == b
  {
    if a != [] && b != [] {
      CompareFlips(a[1..], b[1..]);
      if a[0] == b[0] && a[1..] == b[1..] {
        assert a == [a[0]] + a[1..] && b == [b[0]] + b[1..];
      }
    }
  }

  // ------------------------------------------------------------------ the election

  /** A session as the election sees it. Legacy peers send no connection nonce. */
  datatype Candidate = Candidate(id: Id, isServer: bool, nonce: Option<nat>)

  /** Whether this node, rather than its peer, should be the accepting side: the connection of
      the node whose name sorts last is kept. */
  function PreferServer(me: string, peer: string): Option<bool>
  {
    match Compare(peer, me)
    case Less => Some(false)
    case Greater => Some(true)
    case Equal => None
  }

  predicate Mixed(cs: set<Candidate>)
  {
    (exists c :: c in cs && c.isServer) && (exists c :: c in cs && !c.isServer)
  }

  function ByName(me: string, peer: string, cs: set<Candidate>): set<Candidate>
  {
    var prefer := PreferServer(me, peer);
    if Mixed(cs) && prefer.Some? then set c | c in cs && c.isServer == prefer.value else cs
  }

  ghost predicate HasLeastNonce(cs: set<Candidate>, c: Candidate)
  {
    c.nonce.Some? && forall d :: d in cs && d.nonce.Some? ==> c.nonce.value <= d.nonce.value
  }

  ghost function ByNonce(cs: set<Candidate>): set<Candidate>
  {
    if exists c :: c in cs && c.nonce.Some? then set c | c in cs && HasLeastNonce(cs, c) else cs
  }

  ghost function ByAge(cs: set<Candidate>): set<Candidate>
  {
    if |cs| > 1 && forall c :: c in cs ==> c.isServer then set c | c in cs && forall d :: d in cs ==> c.id <= d.id else cs
  }

  ghost function Elect(me: string, peer: string, cs: set<Candidate>): set<Candidate>
  {
    if |cs| <= 1 then cs else ByAge(ByNonce(ByName(me, peer, cs)))
  }

  // ------------------------------------------------------------------ someone always survives

  lemma {:induction false} LeastExists(cs: set<Candidate>)
    requires exists c :: c in cs && c.nonce.Some?
    ensures exists c :: c in cs && HasLeastNonce(cs, c)
    decreases |cs|
  {
    var c :| c in cs && c.nonce.Some?;
    if !HasLeastNonce(cs, c) {
      var d :| d in cs && d.nonce.Some? && d.nonce.value < c.nonce.value;
      LeastExists(cs - {c});
      var e :| e in cs - {c} && HasLeastNonce(cs - {c}, e);
      assert HasLeastNonce(cs, e);
    }
  }

  lemma {:induction false} OldestExists(cs: set<Candidate>)
    requires cs != {}
    ensures exists c :: c in cs && forall d :: d in cs ==> c.id <= d.id
    decreases |cs|
  {
    var c :| c in cs;
    if cs != {c} {
      assert cs - {c} != {};
      OldestExists(cs - {c});
      var e :| e in cs - {c} && forall d :: d in cs - {c} ==> e.id <= d.id;
      if c.id < e.id {
        assert forall d :: d in cs ==> c.id <= d.id;
      } else {
        assert forall d :: d in cs ==> e.id <= d.id;
      }
    }
  }

  /** Whatever the names, nonces and ids, the elected are some of the candidates, and at least one. */
  lemma SomeoneSurvives(me: string, peer: string, cs: set<Candidate>)
    ensures Elect(me, peer, cs) <= cs
    ensures cs != {} ==> Elect(me, peer, cs) != {}
  {
    if |cs| > 1 {
      var named := ByName(me, peer, cs);
      assert named != {} by {
        if named != cs {
          if PreferServer(me, peer).value {
            var c :| c in cs && c.isServer;
            assert c in named;
          } else {
            var c :| c in cs && !c.isServer;
            assert c in named;
          }
        }
      }
      var first := ByNonce(named);
      if exists c :: c in named && c.nonce.Some? {
        LeastExists(named);
        var c :| c in named && HasLeastNonce(named, c);
        assert c in first;
      }
      assert first != {};
      OldestExists(first);
      var o :| o in first && forall d :: d in first ==> o.id <= d.id;
      assert o in ByAge(first);
    }
  }

  // ------------------------------------------------------------------ the order behind it

  /** Each connection has a nonce, and no two have the same. */
  predicate Regular(cs: set<Candidate>)
  {
    && (forall c :: c in cs ==> c.nonce.Some?)
    && forall c, d :: c in cs && d in cs && c.nonce == d.nonce ==> c == d
  }

  /** Between nodes of different names: the preferred direction first, then the smaller nonce. */
  predicate Beats(prefer: bool, c: Candidate, d: Candidate)
    requires c.nonce.Some? && d.nonce.Some?
  {
    if c.isServer == d.isServer then c.nonce.value < d.nonce.value else c.isServer == prefer
  }

  ghost predicate Best(prefer: bool, cs: set<Candidate>, c: Candidate)
    requires Regular(cs)
  {
    c in cs && forall d :: d in cs && d != c ==> Beats(prefer, c, d)
  }

  /** By name, the preferred direction is kept if it occurs, and everything otherwise. */
  lemma NamedAre(me: string, peer: string, cs: set<Candidate>, c: Candidate)
    requires PreferServer(me, peer).Some?
    ensures c in ByName(me, peer, cs) <==>
              c in cs && (c.isServer == PreferServer(me, peer).value
                          || forall d :: d in cs ==> d.isServer != PreferServer(me, peer).value)
  {
    var prefer := PreferServer(me, peer).value;
    if c in cs && c.isServer != prefer && Mixed(cs) {
      var d :| d in cs && d.isServer == prefer;
    }
  }

  /** The first two filters leave exactly the best. */
  lemma FilteredIsBest(me: string, peer: string, cs: set<Candidate>, c: Candidate)
    requires PreferServer(me, peer).Some? && Regular(cs)
    ensures c in ByNonce(ByName(me, peer, cs)) <==> Best(PreferServer(me, peer).value, cs, c)
    ensures Regular(ByName(me, peer, cs))
  {
    var named := ByName(me, peer, cs);
    forall d ensures d in named ==> d in cs { NamedAre(me, peer, cs, d); }
    assert Regular(named);
    assert c in ByNonce(named) <==> c in named && HasLeastNonce(named, c);
    forall d { NamedAre(me, peer, cs, d); }
    hide ByName, ByNonce;
  }

  /** The election of distinct connections is the maximum of a strict order: exactly one wins. */
  lemma ElectedIsBest(me: string, peer: string, cs: set<Candidate>, c: Candidate)
    requires me != peer && Regular(cs)
    ensures PreferServer(me, peer).Some?
    ensures c in Elect(me, peer, cs) <==> Best(PreferServer(me, peer).value, cs, c)
  {
    CompareFlips(peer, me);
    if |cs| <= 1 {
      if c in cs { AtMostOne(cs, c); }
    } else {
      FilteredIsBest(me, peer, cs, c);
      AtMostOneLeast(ByName(me, peer, cs));
      hide ByName, ByNonce, Best;
      assert Elect(me, peer, cs) == ByNonce(ByName(me, peer, cs));
    }
  }

  lemma AtMostOne(cs: set<Candidate>, c: Candidate)
    requires |cs| <= 1 && c in cs
    ensures cs == {c}
  {
    assert |cs - {c}| == 0;
  }

  lemma AtMostOneLeast(cs: set<Candidate>)
    requires Regular(cs)
    ensures |ByNonce(cs)| <= 1
  {
    var first := ByNonce(cs);
    if first != {} {
      var c :| c in first;
      assert first == {c};
    }
  }

  /** Exactly one of distinct connections survives. */
  lemma ExactlyOne(me: string, peer: string, cs: set<Candidate>, c: Candidate)
    requires me != peer && Regular(cs) && c in Elect(me, peer, cs)
    ensures Elect(me, peer, cs) == {c}
  {
    forall d | d in Elect(me, peer, cs) ensures d == c {
      ElectedIsBest(me, peer, cs, c);
      ElectedIsBest(me, peer, cs, d);
    }
  }

  /** Electing in between changes nothing: losers may be stopped as soon as they lose. */
  lemma PathIndependence(me: string, peer: string, s: set<Candidate>, t: set<Candidate>)
    requires me != peer && Regular(s + t)
    ensures Elect(me, peer, Elect(me, peer, s) + t) == Elect(me, peer, s + t)
  {
    SomeoneSurvives(me, peer, s);
    var early := Elect(me, peer, s);
    assert Regular(s) && Regular(early + t);
    forall c ensures c in Elect(me, peer, early + t) <==> c in Elect(me, peer, s + t) {
      ElectedIsBest(me, peer, early + t, c);
      ElectedIsBest(me, peer, s + t, c);
      BestOfBest(me, peer, s, t, c);
    }
  }

  lemma BestOfBest(me: string, peer: string, s: set<Candidate>, t: set<Candidate>, c: Candidate)
    requires me != peer && Regular(s + t) && Regular(s) && Elect(me, peer, s) <= s && Regular(Elect(me, peer, s) + t)
    requires PreferServer(me, peer).Some?
    ensures var prefer := PreferServer(me, peer).value;
            Best(prefer, Elect(me, peer, s) + t, c) <==> Best(prefer, s + t, c)
  {
    var prefer, early := PreferServer(me, peer).value, Elect(me, peer, s);
    SomeoneSurvives(me, peer, s);
    hide Elect;
    ElectedIsBest(me, peer, s, c);
    if s != {} {
      var w :| w in early;
      ElectedIsBest(me, peer, s, w);
      assert Best(prefer, s, w);
    }
  }

  // ------------------------------------------------------------------ both ends of a connection

  /** A physical connection, with the session id at either end. */
  datatype Connection = Connection(nonce: nat, idA: Id, idB: Id, serverAtA: bool)

  function End(c: Connection, atA: bool): Candidate
  {
    Candidate(if atA then c.idA else c.idB, c.serverAtA == atA, Some(c.nonce))
  }

  function Ends(cs: set<Connection>, atA: bool): set<Candidate>
  {
    set c | c in cs :: End(c, atA)
  }

  predicate DistinctNonces(cs: set<Connection>)
  {
    forall c, d :: c in cs && d in cs && c.nonce == d.nonce ==> c == d
  }

  lemma EndsAreRegular(cs: set<Connection>, atA: bool)
    requires DistinctNonces(cs)
    ensures Regular(Ends(cs, atA))
  {
  }

  /** The two nodes, each by its own name, elect the same physical connection. */
  lemma BothNodesAgree(a: string, b: string, cs: set<Connection>, w: Connection)
    requires a != b && DistinctNonces(cs) && w in cs
    ensures End(w, true) in Elect(a, b, Ends(cs, true)) <==> End(w, false) in Elect(b, a, Ends(cs, false))
  {
    EndsAreRegular(cs, true);
    EndsAreRegular(cs, false);
    CompareFlips(a, b);
    ElectedIsBest(a, b, Ends(cs, true), End(w, true));
    ElectedIsBest(b, a, Ends(cs, false), End(w, false));
    hide Elect;
    var prefer := PreferServer(a, b).value;
    assert PreferServer(b, a) == Some(!prefer);
    forall c | c in cs && c != w
      ensures Beats(prefer, End(w, true), End(c, true)) <==> Beats(!prefer, End(w, false), End(c, false))
    {
    }
    assert Best(prefer, Ends(cs, true), End(w, true)) <==> forall c :: c in cs && c != w ==> Beats(prefer, End(w, true), End(c, true));
    assert Best(!prefer, Ends(cs, false), End(w, false))
      <==> forall c :: c in cs && c != w ==> Beats(!prefer, End(w, false), End(c, false));
  }

  /** When both nodes have connected to each other, a connection initiated by the node whose name
      sorts last survives, and of those the one with the least nonce. */
  lemma LastNameInitiates(a: string, b: string, cs: set<Connection>, w: Connection)
    requires a != b && DistinctNonces(cs) && w in cs && End(w, true) in Elect(a, b, Ends(cs, true))
    requires exists c, d :: c in cs && d in cs && c.serverAtA && !d.serverAtA
    ensures w.serverAtA <==> Compare(a, b) == Less
    ensures forall c :: c in cs && c.serverAtA == w.serverAtA ==> w.nonce <= c.nonce
  {
    EndsAreRegular(cs, true);
    CompareFlips(a, b);
    ElectedIsBest(a, b, Ends(cs, true), End(w, true));
    hide Elect;
    var prefer := PreferServer(a, b).value;
    forall c | c in cs && c != w ensures Beats(prefer, End(w, true), End(c, true)) {
      assert End(c, true) in Ends(cs, true);
      assert End(c, true) != End(w, true);
    }
    var c, d :| c in cs && d in cs && c.serverAtA && !d.serverAtA;
    assert w != c ==> Beats(prefer, End(w, true), End(c, true));
    assert w != d ==> Beats(prefer, End(w, true), End(d, true));
  }
}
