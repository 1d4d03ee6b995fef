/**
 The election and the node server run in place: vectors that are filtered step by step, and
 maps and sets that the handlers update.
 */
module ElectionState {
  import opened Options
  import opened Election
  import ElectionNode

  function Members(s: seq<Candidate>): set<Candidate> { set c | c in s }

  /** No two candidates are the same session. */
  predicate DistinctIds(s: seq<Candidate>) { forall i, j :: 0 <= i < j < |s| ==> s[i].id != s[j].id }

  /** Keep, in order, the candidates that satisfy the test. */
  method Retain(s: seq<Candidate>, test: Candidate -> bool) returns (r: seq<Candidate>)
    requires DistinctIds(s)
    ensures DistinctIds(r) && Members(r) == set c | c in s && test(c)
  {
    r := [];
    for i := 0 to |s|
      invariant DistinctIds(r)
      invariant forall c :: c in r <==> c in s[..i] && test(c)
    {
      assert s[..i + 1] == s[..i] + [s[i]];
      assert forall c :: c in s[..i] ==> c.id != s[i].id;
      assert forall j :: 0 <= j < |r| ==> r[j] in s[..i];
      if test(s[i]) {
        r := r + [s[i]];
      }
    }
    assert s[..|s|] == s;
  }

  method LeastNonce(s: seq<Candidate>) returns (least: Option<nat>)
    ensures least.None? <==> forall c :: c in s ==> c.nonce.None?
    ensures least.Some? ==> exists c :: c in s && c.nonce == least && HasLeastNonce(Members(s), c)
  {
    least := None;
    ghost var best: Option<Candidate> := None;
    for i := 0 to |s|
      invariant least.None? <==> forall c :: c in s[..i] ==> c.nonce.None?
      invariant least.Some? <==> best.Some?
      invariant least.Some? ==> best.value in s[..i] && best.value.nonce == least
      invariant least.Some? ==> forall c :: c in s[..i] && c.nonce.Some? ==> least.value <= c.nonce.value
    {
      assert s[..i + 1] == s[..i] + [s[i]];
      if s[i].nonce.Some? && (least.None? || s[i].nonce.value < least.value) {
        least := s[i].nonce;
        best := Some(s[i]);
      }
    }
    assert s[..|s|] == s;
    if least.Some? { assert HasLeastNonce(Members(s), best.value); }
  }

  method OldestId(s: seq<Candidate>) returns (id: Id)
    requires s != []
    ensures exists c :: c in s && c.id == id && forall d :: d in s ==> c.id <= d.id
  {
    id := s[0].id;
    ghost var best := s[0];
    for i := 1 to |s|
      invariant best in s && best.id == id && forall d :: d in s[..i] ==> best.id <= d.id
    {
      assert s[..i + 1] == s[..i] + [s[i]];
      if s[i].id < id {
        id := s[i].id;
        best := s[i];
      }
    }
    assert s[..|s|] == s;
  }

  lemma {:induction false} SizeOfMembers(s: seq<Candidate>)
    requires DistinctIds(s)
    ensures |Members(s)| == |s|
  {
    if s != [] {
      SizeOfMembers(s[1..]);
      assert Members(s) == {s[0]} + Members(s[1..]);
      assert s[0] !in Members(s[1..]);
    }
  }

  method KeepPreferred(me: string, peer: string, s: seq<Candidate>) returns (r: seq<Candidate>)
    requires DistinctIds(s)
    ensures DistinctIds(r) && Members(r) == ByName(me, peer, Members(s))
  {
    var hasServer, hasClient := false, false;
    for i := 0 to |s|
      invariant hasServer <==> exists c :: c in s[..i] && c.isServer
      invariant hasClient <==> exists c :: c in s[..i] && !c.isServer
    {
      assert s[..i + 1] == s[..i] + [s[i]];
      if s[i].isServer {
        hasServer := true;
      } else {
        hasClient := true;
      }
    }
    assert s[..|s|] == s;
    r := s;
    if hasServer && hasClient {
      var prefer := PreferServer(me, peer);
      if prefer.Some? {
        r := Retain(s, (c: Candidate) => c.isServer == prefer.value);
      }
    }
  }

  method KeepLeastNonce(s: seq<Candidate>) returns (r: seq<Candidate>)
    requires DistinctIds(s)
    ensures DistinctIds(r) && Members(r) == ByNonce(Members(s))
  {
    r := s;
    var least := LeastNonce(s);
    if least.Some? {
      r := Retain(s, (c: Candidate) => c.nonce == least);
      assert Members(r) == ByNonce(Members(s));
    }
  }

  method KeepOldest(s: seq<Candidate>) returns (r: seq<Candidate>)
    requires DistinctIds(s)
    ensures DistinctIds(r) && Members(r) == ByAge(Members(s))
  {
    SizeOfMembers(s);
    r := s;
    if |s| > 1 && forall i :: 0 <= i < |s| ==> s[i].isServer {
      var winner := OldestId(s);
      r := Retain(s, (c: Candidate) => c.id == winner);
      assert Members(r) == ByAge(Members(s));
    } else {
      assert ByAge(Members(s)) == Members(s);
    }
  }

  method ElectSessions(me: string, peer: string, candidates: seq<Candidate>) returns (r: seq<Candidate>)
    requires DistinctIds(candidates)
    ensures DistinctIds(r) && Members(r) == Elect(me, peer, Members(candidates))
  {
    SizeOfMembers(candidates);
    r := candidates;
    if |r| <= 1 {
      return;
    }
    r := KeepPreferred(me, peer, r);
    r := KeepLeastNonce(r);
    r := KeepOldest(r);
  }

  /** The node server's table of sessions. */
  class NodeServer {
    const name: string
    var sessions: map<Id, ElectionNode.Session>
    var nonces: map<Id, Option<nat>>
    var authenticated: set<Id>

    ghost function Contents(): ElectionNode.Node
      reads this
    {
      ElectionNode.Node(name, sessions, nonces, authenticated)
    }

    constructor (name: string)
      ensures Contents() == ElectionNode.Node(name, map[], map[], {})
    {
      this.name := name;
      sessions, nonces, authenticated := map[], map[], {};
    }

    method OpenSession(id: Id, isServer: bool)
      modifies this`sessions
      ensures Contents() == ElectionNode.Open(old(Contents()), id, isServer)
    {
      sessions := sessions[id := ElectionNode.Session(isServer, None)];
    }

    method RegisterSession(id: Id, peer: string, nonce: nat) returns (known: bool)
      modifies this`sessions, this`nonces
      ensures Contents() == ElectionNode.Register(old(Contents()), id, peer, nonce)
      ensures known <==> id in old(sessions)
    {
      if id !in sessions {
        return false;
      }
      sessions := sessions[id := sessions[id].(peer := Some(peer))];
      nonces := nonces[id := if nonce == 0 then None else Some(nonce)];
      return true;
    }

    method CandidatesForPeer(peer: string) returns (cs: seq<Candidate>)
      ensures DistinctIds(cs) && Members(cs) == ElectionNode.Candidates(Contents(), peer)
    {
      cs := [];
      var left := sessions.Keys;
      while left != {}
        invariant left <= sessions.Keys && DistinctIds(cs)
        invariant forall c :: c in cs ==> c.id in sessions && c.id !in left
        invariant forall c :: c in cs <==> c.id in sessions && c.id !in left && ElectionNode.IsPeer(Contents(), c.id, peer)
                                           && c.id in authenticated && c == ElectionNode.CandidateOf(Contents(), c.id)
        decreases |left|
      {
        var id :| id in left;
        left := left - {id};
        if sessions[id].peer == Some(peer) && id in authenticated {
          assert forall j :: 0 <= j < |cs| ==> cs[j] in cs;
          cs := cs + [Candidate(id, sessions[id].isServer, if id in nonces then nonces[id] else None)];
        }
      }
    }

    /** The authenticated sessions with the peer, and the session that asks. */
    method Competitors(id: Id, peer: string) returns (cs: seq<Candidate>)
      requires id in sessions && sessions[id].peer == Some(peer)
      ensures DistinctIds(cs)
      ensures Members(cs) == ElectionNode.Candidates(Contents(), peer) + {ElectionNode.CandidateOf(Contents(), id)}
    {
      cs := CandidatesForPeer(peer);
      if id !in authenticated {
        assert forall j :: 0 <= j < |cs| ==> cs[j] in Members(cs);
        cs := cs + [Candidate(id, sessions[id].isServer, if id in nonces then nonces[id] else None)];
      } else {
        assert ElectionNode.IsPeer(Contents(), id, peer);
      }
    }

    method CheckCandidate(id: Id) returns (reply: ElectionNode.Reply)
      ensures reply == ElectionNode.Check(Contents(), id)
    {
      hide Elect, ElectionNode.Candidates;
      if id !in sessions || sessions[id].peer.None? {
        return ElectionNode.OtherConnectionContinues;
      }
      var peer := sessions[id].peer.value;
      var candidates := Competitors(id, peer);
      SizeOfMembers(candidates);
      var elected := ElectSessions(name, peer, candidates);
      var kept := set c | c in elected :: c.id;
      assert kept == ElectionNode.Ids(Members(elected));
      if id !in kept {
        return ElectionNode.OtherConnectionContinues;
      }
      return if |candidates| > 1 then ElectionNode.ThisConnectionContinues else ElectionNode.NoOtherConnection;
    }

    method CommitAuthenticated(id: Id) returns (losers: set<Id>)
      modifies this`authenticated
      ensures Contents() == ElectionNode.Commit(old(Contents()), id)
      ensures id in sessions && sessions[id].peer.Some? ==> losers == ElectionNode.Losers(old(Contents()), id)
    {
      losers := {};
      if id !in sessions || sessions[id].peer.None? {
        return;
      }
      var peer := sessions[id].peer.value;
      authenticated := authenticated + {id};
      var candidates := CandidatesForPeer(peer);
      var elected := ElectSessions(name, peer, candidates);
      var kept := set c | c in elected :: c.id;
      assert kept == ElectionNode.Ids(Members(elected));
      losers := set i | i in authenticated && i in sessions && sessions[i].peer == Some(peer) && i !in kept;
      authenticated := authenticated - losers;
    }

    method IsElected(id: Id) returns (elected: bool)
      ensures elected <==> ElectionNode.IsElected(Contents(), id)
    {
      hide Elect, ElectionNode.Candidates;
      if id !in authenticated || id !in sessions || sessions[id].peer.None? {
        return false;
      }
      var peer := sessions[id].peer.value;
      var candidates := CandidatesForPeer(peer);
      var kept := ElectSessions(name, peer, candidates);
      var ids := set c | c in kept :: c.id;
      assert ids == ElectionNode.Ids(Members(kept));
      return id in ids;
    }

    method SessionEnded(id: Id)
      modifies this`sessions, this`nonces, this`authenticated
      ensures Contents() == ElectionNode.Ended(old(Contents()), id)
    {
      if id in sessions {
        sessions := sessions - {id};
        nonces := nonces - {id};
        authenticated := authenticated - {id};
      }
    }
  }
}
