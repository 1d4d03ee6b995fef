/**
 The remote actor's state run in place, with its fixed array of inspected tags.
 */
module RemoteCallsState {
  import opened Options
  import opened RemoteCalls
  import RemoteCallsAnswers

  /** Inspecting one more request. */
  lemma {:induction false} KeptMore(p: seq<Entry>, inspected: seq<Entry>, e: Entry, closed: set<Port>)
    requires forall x :: x in p && x.tag == e.tag ==> x == e
    ensures Kept(p, inspected + [e], closed)
         == if e.port in closed then Without(Kept(p, inspected, closed), e.tag) else Kept(p, inspected, closed)
  {
    if p != [] {
      KeptMore(p[1..], inspected, e, closed);
      if e.port in closed {
        var first := if p[0] in inspected && p[0].port in closed then [] else [p[0]];
        WithoutSplits(first, Kept(p[1..], inspected, closed), e.tag);
        if first != [] && p[0].tag != e.tag { WithoutNone([p[0]], e.tag); }
      }
    }
  }

  lemma {:induction false} KeptNothing(p: seq<Entry>, closed: set<Port>)
    ensures Kept(p, [], closed) == p
  {
    if p != [] { KeptNothing(p[1..], closed); }
  }

  /** Take the request away if its caller has given up. */
  function ReclaimOne(p: seq<Entry>, tag: nat, closed: set<Port>): seq<Entry>
  {
    var found := Lookup(p, tag);
    if found != [] && found[0].port in closed then Without(p, tag) else p
  }

  lemma ReclaimIsKept(s: State, inspected: seq<Entry>, e: Entry, closed: set<Port>)
    requires Valid(s) && e in s.pending
    ensures ReclaimOne(Kept(s.pending, inspected, closed), e.tag, closed) == Kept(s.pending, inspected + [e], closed)
  {
    hide Kept, Lookup, Without;
    var p := Kept(s.pending, inspected, closed);
    TagIsEntry(s, e);
    KeptMore(s.pending, inspected, e, closed);
    LookupFinds(p, e);
    if e !in p { WithoutNone(p, e.tag); }
  }

  method FirstAfter(p: seq<Entry>, cursor: nat) returns (i: nat)
    ensures i == Passed(p, Some(cursor))
  {
    i := 0;
    while i < |p| && p[i].tag <= cursor
      invariant i <= |p| && Passed(p, Some(cursor)) == i + Passed(p[i..], Some(cursor))
    {
      assert p[i..][0] == p[i] && p[i..][1..] == p[i + 1..];
      i := i + 1;
    }
    assert i < |p| ==> p[i..][0] == p[i];
  }

  class RemoteActorState {
    var messageTag: nat
    var pending: seq<Entry>       // in the order of their tags
    var cursor: Option<nat>

    function Contents(): State
      reads this
    {
      State(messageTag, pending, cursor)
    }

    constructor ()
      ensures Contents() == State(0, [], None) && Valid(Contents())
    {
      messageTag, pending, cursor := 0, [], None;
    }

    /** Remember which requests to inspect: those after the cursor, then from the start. */
    method Inspect(tags: array<nat>, n: nat) returns (count: nat)
      requires tags.Length == BUDGET && n == Min(|pending|, BUDGET)
      modifies tags
      ensures count == n
      ensures forall k :: 0 <= k < n ==> tags[k] == Inspected(Contents())[k].tag
    {
      hide Inspected;
      count := 0;
      ghost var first := Passed(pending, cursor);
      if cursor.Some? {
        var i := FirstAfter(pending, cursor.value);
        while count < n && i < |pending|
          invariant count <= n && first <= i <= |pending| && count == i - first
          invariant forall k :: 0 <= k < count ==> tags[k] == pending[first + k].tag
          decreases |pending| - i
        {
          tags[count] := pending[i].tag;
          count := count + 1;
          i := i + 1;
        }
      }
      var i := 0;
      var taken := n - count;
      ghost var ahead := count;
      while i < taken
        invariant i <= taken && count == ahead + i && n == ahead + taken
        invariant forall k :: 0 <= k < ahead ==> tags[k] == pending[first + k].tag
        invariant forall k :: 0 <= k < i ==> tags[ahead + k] == pending[k].tag
      {
        tags[count] := pending[i].tag;
        count := count + 1;
        i := i + 1;
      }
      assert cursor.None? ==> first == 0 && ahead == 0;
      assert ahead < n && cursor.Some? ==> ahead == |pending| - first;
      forall k | 0 <= k < n ensures tags[k] == Inspected(Contents())[k].tag {
        InspectedAt(Contents(), k);
        if k >= ahead { assert tags[ahead + (k - ahead)] == pending[k - ahead].tag; }
      }
    }

    /** Go through the inspected requests and take away those whose caller has given up. */
    method ReclaimInspected(tags: array<nat>, count: nat, closed: set<Port>, ghost inspected: seq<Entry>)
      requires Valid(Contents()) && count == |inspected| <= tags.Length
      requires forall k :: 0 <= k < count ==> tags[k] == inspected[k].tag && inspected[k] in pending
      modifies this`pending
      ensures pending == Kept(old(pending), inspected, closed)
    {
      hide Kept, ReclaimOne, Valid;
      ghost var s := Contents();
      KeptNothing(pending, closed);
      var i := 0;
      while i < count
        invariant i <= count
        invariant pending == Kept(s.pending, inspected[..i], closed)
      {
        assert inspected[..i + 1] == inspected[..i] + [inspected[i]];
        ReclaimIsKept(s, inspected[..i], inspected[i], closed);
        pending := ReclaimOne(pending, tags[i], closed);
        i := i + 1;
      }
      assert inspected[..count] == inspected;
    }

    method CleanupClosed(closed: set<Port>)
      requires Valid(Contents())
      modifies this`pending, this`cursor
      ensures Contents() == Sweep(old(Contents()), closed)
    {
      var n := Min(|pending|, BUDGET);
      if n == 0 {
        cursor := None;
        return;
      }
      hide Kept, Rotated, Valid;
      ghost var s := Contents();
      var tags := new nat[BUDGET](_ => 0);
      var count := Inspect(tags, n);
      AllInspected(s);
      ReclaimInspected(tags, count, closed, Inspected(s));
      cursor := if pending == [] then None else Some(tags[count - 1]);
    }

    method RemovePending(tag: nat) returns (port: Option<Port>)
      modifies this`pending, this`cursor
      ensures Contents() == Remove(old(Contents()), tag)
      ensures port == var found := Lookup(old(pending), tag); if found == [] then None else Some(found[0].port)
    {
      var found := Lookup(pending, tag);
      port := if found == [] then None else Some(found[0].port);
      pending := Without(pending, tag);
      if pending == [] {
        cursor := None;
      }
    }

    method NextTag() returns (tag: nat)
      modifies this`messageTag
      ensures tag == messageTag == old(messageTag) + 1
    {
      messageTag := messageTag + 1;
      tag := messageTag;
    }

    /** Handle a message; the port a reply is sent to, if there is one. */
    method HandleSerialized(closed: set<Port>, m: Message) returns (port: Option<Port>)
      requires Valid(Contents())
      modifies this
      ensures Contents() == Handle(old(Contents()), closed, m)
      ensures port == var a := Answered(old(Contents()), Step(closed, m)); if a == [] then None else Some(a[0].port)
      ensures port.Some? ==> m.CallReply? && Entry(m.tag, port.value) in old(pending)
      ensures forall e :: e in old(pending) && m == CallReply(e.tag) && e.port !in closed ==> port == Some(e.port)
    {
      hide Valid, Sweep, Lookup, Without;
      HandleAnswers(Contents(), Step(closed, m));
      port := None;
      CleanupClosed(closed);
      match m
      case Call(reply, sent) =>
        var tag := NextTag();
        pending := pending + [Entry(tag, reply)];
        if !sent {
          var _ := RemovePending(tag);
        }
      case Cast =>
      case CallReply(tag) =>
        port := RemovePending(tag);
    }
  }

  lemma HandleAnswers(s: State, step: Step)
    requires Valid(s)
    ensures forall x :: x in Answered(s, step) ==> step.message == CallReply(x.tag) && x in s.pending
    ensures forall e :: e in s.pending && step.message == CallReply(e.tag) && e.port !in step.closed ==> Answered(s, step) == [e]
  {
    SweepTakes(s, step.closed);
    forall e | e in s.pending && step.message == CallReply(e.tag) && e.port !in step.closed ensures Answered(s, step) == [e] {
      RemoteCallsAnswers.AnsweredNow(s, step, e);
    }
  }

  lemma InspectedAt(s: State, k: nat)
    requires k < Min(|s.pending|, BUDGET)
    ensures k < |Inspected(s)|
    ensures var first := Passed(s.pending, s.cursor);
            Inspected(s)[k] == s.pending[if first + k < |s.pending| then first + k else first + k - |s.pending|]
  {
  }

  lemma AllInspected(s: State)
    requires Valid(s)
    ensures |Inspected(s)| == Min(|s.pending|, BUDGET)
    ensures forall k :: 0 <= k < |Inspected(s)| ==> Inspected(s)[k] in s.pending
  {
    RotatedIsAll(s);
    hide Rotated;
    forall k | 0 <= k < |Inspected(s)| ensures Inspected(s)[k] in s.pending { assert Inspected(s)[k] in Rotated(s); }
  }
}
