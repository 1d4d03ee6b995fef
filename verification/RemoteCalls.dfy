/**
 The calls a remote actor has sent and not yet seen answered. Callers may give up; the reply
 ports they leave behind are reclaimed a few at a time, at most sixteen per handled message.
 */
module RemoteCalls {
  import opened Options

  type Port = nat

  const BUDGET: nat := 16

  /** A request waiting for its reply. */
  datatype Entry = Entry(tag: nat, port: Port)

  /** The pending requests in the order of their tags. */
  datatype State = State(tag: nat, pending: seq<Entry>, cursor: Option<nat>)

  predicate Sorted(p: seq<Entry>) { forall i, j :: 0 <= i < j < |p| ==> p[i].tag < p[j].tag }

  predicate Valid(s: State)
  {
    && Sorted(s.pending)
    && (forall e :: e in s.pending ==> 1 <= e.tag <= s.tag)
    && (s.cursor.Some? ==> s.cursor.value <= s.tag)
  }

  function Min(a: nat, b: nat): nat { if a < b then a else b }

  /** How many pending requests are not after the cursor. */
  function Passed(p: seq<Entry>, cursor: Option<nat>): (i: nat)
    ensures i <= |p|
  {
    if p == [] || cursor.None? || p[0].tag > cursor.value then 0 else 1 + Passed(p[1..], cursor)
  }

  /** The pending requests in the order in which they will be inspected: from the cursor on,
      then from the start. */
  function Rotated(s: State): (r: seq<Entry>)
    ensures |r| == |s.pending|
  {
    var i := Passed(s.pending, s.cursor);
    s.pending[i..] + s.pending[..i]
  }

  function Inspected(s: State): (r: seq<Entry>)
    ensures |r| == Min(|s.pending|, BUDGET)
  {
    Rotated(s)[..Min(|s.pending|, BUDGET)]
  }

  /** The requests that are not both inspected and abandoned. */
  function Kept(p: seq<Entry>, inspected: seq<Entry>, closed: set<Port>): (r: seq<Entry>)
    ensures forall e :: e in r <==> e in p && !(e in inspected && e.port in closed)
  {
    if p == [] then []
    else (if p[0] in inspected && p[0].port in closed then [] else [p[0]]) + Kept(p[1..], inspected, closed)
  }

  function Sweep(s: State, closed: set<Port>): State
  {
    var inspected := Inspected(s);
    var kept := Kept(s.pending, inspected, closed);
    State(s.tag, kept, if kept == [] || inspected == [] then None else Some(inspected[|inspected| - 1].tag))
  }

  function Without(p: seq<Entry>, tag: nat): (r: seq<Entry>)
    ensures forall e :: e in r <==> e in p && e.tag != tag
  {
    if p == [] then [] else (if p[0].tag == tag then [] else [p[0]]) + Without(p[1..], tag)
  }

  function Remove(s: State, tag: nat): State
  {
    var p := Without(s.pending, tag);
    State(s.tag, p, if p == [] then None else s.cursor)
  }

  datatype Message =
    | Call(port: Port, sent: bool)   // a request, and whether the session took it
    | Cast
    | CallReply(tag: nat)

  function Operate(s: State, m: Message): State
  {
    match m
    case Call(port, sent) =>
      var called := State(s.tag + 1, s.pending + [Entry(s.tag + 1, port)], s.cursor);
      if sent then called else Remove(called, s.tag + 1)
    case Cast => s
    case CallReply(tag) => Remove(s, tag)
  }

  function Handle(s: State, closed: set<Port>, m: Message): State { Operate(Sweep(s, closed), m) }

  // ------------------------------------------------------------------ what a sweep does to the order

  lemma {:induction false} KeptSplits(a: seq<Entry>, b: seq<Entry>, inspected: seq<Entry>, closed: set<Port>)
    ensures Kept(a + b, inspected, closed) == Kept(a, inspected, closed) + Kept(b, inspected, closed)
  {
    if a == [] {
      assert a + b == b;
    } else {
      assert (a + b)[1..] == a[1..] + b;
      KeptSplits(a[1..], b, inspected, closed);
    }
  }

  lemma {:induction false} KeptAll(p: seq<Entry>, inspected: seq<Entry>, closed: set<Port>)
    requires forall e :: e in p ==> e !in inspected
    ensures Kept(p, inspected, closed) == p
  {
    if p != [] { KeptAll(p[1..], inspected, closed); }
  }

  lemma {:induction false} KeptSorted(p: seq<Entry>, inspected: seq<Entry>, closed: set<Port>)
    requires Sorted(p)
    ensures Sorted(Kept(p, inspected, closed))
  {
    if p != [] { KeptSorted(p[1..], inspected, closed); }
  }

  lemma {:induction false} WithoutSorted(p: seq<Entry>, tag: nat)
    requires Sorted(p)
    ensures Sorted(Without(p, tag))
  {
    if p != [] { WithoutSorted(p[1..], tag); }
  }

  lemma {:induction false} PassedIs(p: seq<Entry>, cursor: Option<nat>, i: nat)
    requires Sorted(p) && i <= |p|
    requires cursor.Some? && (i > 0 ==> p[i - 1].tag <= cursor.value) && (i < |p| ==> p[i].tag > cursor.value)
    ensures Passed(p, cursor) == i
  {
    if i > 0 {
      assert p[0].tag <= p[i - 1].tag;
      PassedIs(p[1..], cursor, i - 1);
    }
  }

  lemma Apart(a: seq<Entry>, b: seq<Entry>)
    requires Sorted(a + b)
    ensures forall e :: e in a ==> e !in b
    ensures forall e, f :: e in a && f in b ==> e.tag < f.tag
  {
    forall e, f | e in a && f in b ensures e.tag < f.tag {
      var i :| 0 <= i < |a| && a[i] == e;
      var j :| 0 <= j < |b| && b[j] == f;
      assert (a + b)[i] == e && (a + b)[|a| + j] == f;
    }
  }

  /** The pending requests, cut at the cursor. */
  predicate CutAt(s: State, head: seq<Entry>, tail: seq<Entry>)
  {
    && s.pending == head + tail
    && (s.cursor.None? ==> head == [])
    && (s.cursor.Some? ==> forall e :: e in head ==> e.tag <= s.cursor.value)
    && (s.cursor.Some? ==> forall e :: e in tail ==> e.tag > s.cursor.value)
  }

  lemma RotatedAt(s: State, head: seq<Entry>, tail: seq<Entry>)
    requires Sorted(s.pending) && CutAt(s, head, tail)
    ensures Rotated(s) == tail + head
  {
    if s.cursor.Some? {
      var i := |head|;
      if i > 0 { assert s.pending[i - 1] == head[i - 1] && head[i - 1] in head; }
      if i < |s.pending| { assert s.pending[i] == tail[0] && tail[0] in tail; }
      PassedIs(s.pending, s.cursor, i);
    }
  }

  lemma SweepValid(s: State, closed: set<Port>)
    requires Valid(s)
    ensures Valid(Sweep(s, closed))
  {
    KeptSorted(s.pending, Inspected(s), closed);
    var inspected := Inspected(s);
    if inspected != [] {
      assert inspected[|inspected| - 1] in Rotated(s);
      assert inspected[|inspected| - 1] in s.pending;
    }
  }

  lemma KeptAhead(x: seq<Entry>, y: seq<Entry>, z: seq<Entry>, closed: set<Port>)
    requires Sorted(x + y + z)
    ensures Kept(x + y + z, y, closed) == (x + Kept(y, y, closed)) + z
  {
    hide Kept;
    assert x + y + z == x + (y + z);
    Apart(x, y + z);
    Apart(x + y, z);
    KeptSplits(x + y, z, y, closed);
    KeptSplits(x, y, y, closed);
    KeptAll(x, y, closed);
    KeptAll(z, y, closed);
  }

  lemma KeptAround(a: seq<Entry>, b: seq<Entry>, c: seq<Entry>, closed: set<Port>)
    requires Sorted(a + b + c)
    ensures Kept(a + b + c, c + a, closed) == Kept(a, c + a, closed) + (b + Kept(c, c + a, closed))
    ensures Kept(c + a, c + a, closed) == Kept(c, c + a, closed) + Kept(a, c + a, closed)
  {
    hide Kept;
    assert a + b + c == a + (b + c);
    Apart(a, b + c);
    Apart(a + b, c);
    KeptSplits(a + b, c, c + a, closed);
    KeptSplits(a, b, c + a, closed);
    KeptSplits(c, a, c + a, closed);
    KeptAll(b, c + a, closed);
    Associative(Kept(a, c + a, closed), b, Kept(c, c + a, closed));
  }

  lemma Associative(a: seq<Entry>, b: seq<Entry>, c: seq<Entry>)
    ensures a + b + c == a + (b + c)
  {
  }

  lemma SortedTo(x: seq<Entry>, y: seq<Entry>, z: seq<Entry>)
    requires Sorted(x + y + z) && y != []
    ensures forall e :: e in y ==> e.tag <= y[|y| - 1].tag
    ensures forall e :: e in x ==> e.tag < y[|y| - 1].tag
    ensures forall e :: e in z ==> e.tag > y[|y| - 1].tag
  {
    var w, last := x + y + z, y[|y| - 1];
    assert w[|x| + |y| - 1] == last;
    forall e | e in y ensures e.tag <= last.tag {
      var i :| 0 <= i < |y| && y[i] == e;
      assert w[|x| + i] == e;
    }
    forall e | e in x ensures e.tag < last.tag {
      var i :| 0 <= i < |x| && x[i] == e;
      assert w[i] == e;
    }
    forall e | e in z ensures e.tag > last.tag {
      var i :| 0 <= i < |z| && z[i] == e;
      assert w[|x| + |y| + i] == e;
    }
  }

  lemma SweepAhead(s: State, closed: set<Port>, x: seq<Entry>, y: seq<Entry>, z: seq<Entry>)
    requires Valid(s) && s.pending == x + y + z && y != [] && Inspected(s) == y
    ensures Rotated(Sweep(s, closed)) == z + (x + Kept(y, y, closed))
  {
    hide Kept, Inspected, Rotated;
    var s', k := Sweep(s, closed), Kept(y, y, closed);
    SweepValid(s, closed);
    KeptAhead(x, y, z, closed);
    SortedTo(x, y, z);
    if s'.pending == [] {
      EmptyRotated(s');
    } else {
      RotatedAt(s', x + k, z);
    }
  }

  lemma EmptyRotated(s: State)
    requires s.pending == []
    ensures Rotated(s) == []
  {
  }

  lemma SweepAround(s: State, closed: set<Port>, a: seq<Entry>, b: seq<Entry>, c: seq<Entry>)
    requires Valid(s) && s.pending == a + b + c && a != [] && Inspected(s) == c + a
    ensures Rotated(Sweep(s, closed)) == b + Kept(c + a, c + a, closed)
  {
    hide Kept, Inspected, Rotated;
    var s', ka, kc := Sweep(s, closed), Kept(a, c + a, closed), Kept(c, c + a, closed);
    SweepValid(s, closed);
    KeptAround(a, b, c, closed);
    Associative(a, b, c);
    assert [] + a + (b + c) == a + (b + c);
    SortedTo([], a, b + c);
    if s'.pending == [] {
      EmptyRotated(s');
    } else {
      RotatedAt(s', ka, b + kc);
      Associative(b, kc, ka);
    }
  }

  lemma CutAhead(p: seq<Entry>, i: nat, n: nat)
    requires i + n <= |p|
    ensures var x, y, z := p[..i], p[i..i + n], p[i + n..];
            var r := p[i..] + p[..i];
            p == x + y + z && r[..n] == y && r[n..] == z + x
  {
  }

  lemma CutAround(p: seq<Entry>, i: nat, m: nat)
    requires m <= i <= |p|
    ensures var a, b, c := p[..m], p[m..i], p[i..];
            var r := p[i..] + p[..i];
            p == a + b + c && r[..|c| + m] == c + a && r[|c| + m..] == b
  {
  }

  /** After a sweep the requests not inspected come first, in the same order, then those that
      were inspected and are still open. */
  lemma SweepRotates(s: State, closed: set<Port>)
    requires Valid(s)
    ensures Rotated(Sweep(s, closed))
         == Rotated(s)[|Inspected(s)|..] + Kept(Inspected(s), Inspected(s), closed)
  {
    var p, i, n := s.pending, Passed(s.pending, s.cursor), Min(|s.pending|, BUDGET);
    hide Kept, Passed, Sweep, Valid;
    if n == 0 {
      NothingToSweep(s, closed);
    } else if i + n <= |p| {
      CutAhead(p, i, n);
      SweepAhead(s, closed, p[..i], p[i..i + n], p[i + n..]);
      Associative(p[i + n..], p[..i], Kept(p[i..i + n], p[i..i + n], closed));
    } else {
      var m := n - (|p| - i);
      CutAround(p, i, m);
      SweepAround(s, closed, p[..m], p[m..i], p[i..]);
    }
  }

  lemma NothingToSweep(s: State, closed: set<Port>)
    requires s.pending == []
    ensures Inspected(s) == [] && Kept([], [], closed) == [] && Rotated(s) == [] && Rotated(Sweep(s, closed)) == []
  {
  }

  // ------------------------------------------------------------------ a sweep never takes an open request

  lemma TurnedDistinct(head: seq<Entry>, tail: seq<Entry>, i: nat, j: nat)
    requires Sorted(head + tail) && i < j < |tail + head|
    ensures (tail + head)[i].tag != (tail + head)[j].tag
  {
    var w, t := head + tail, |tail|;
    var a, b := if i < t then |head| + i else i - t, if j < t then |head| + j else j - t;
    assert (tail + head)[i] == w[a] && (tail + head)[j] == w[b];
    if a < b { assert w[a].tag < w[b].tag; } else { assert w[b].tag < w[a].tag; }
  }

  lemma RotatedIsAll(s: State)
    requires Valid(s)
    ensures forall x :: x in Rotated(s) <==> x in s.pending
    ensures forall i, j :: 0 <= i < j < |s.pending| ==> Rotated(s)[i].tag != Rotated(s)[j].tag
  {
    hide Rotated;
    var head, tail := Cut(s);
    forall i, j | 0 <= i < j < |s.pending| ensures Rotated(s)[i].tag != Rotated(s)[j].tag {
      TurnedDistinct(head, tail, i, j);
    }
  }

  /** A sweep inspects as many requests as it may, no request twice, and takes away exactly
      those that it inspects and whose caller has given up. */
  lemma SweepMeaning(s: State, closed: set<Port>, e: Entry)
    requires Valid(s)
    ensures |Inspected(s)| == Min(|s.pending|, BUDGET)
    ensures forall i, j :: 0 <= i < j < |Inspected(s)| ==> Inspected(s)[i].tag != Inspected(s)[j].tag
    ensures forall x :: x in Inspected(s) ==> x in s.pending
    ensures e in Sweep(s, closed).pending <==> e in s.pending && !(e in Inspected(s) && e.port in closed)
    ensures Valid(Sweep(s, closed))
  {
    SweepValid(s, closed);
    RotatedIsAll(s);
    hide Rotated, Valid;
  }

  // ------------------------------------------------------------------ how long an abandoned request stays

  /** The request is the `d`-th to be inspected. */
  predicate IsAt(r: seq<Entry>, d: nat, e: Entry) { d < |r| && r[d] == e }

  lemma {:induction false} PassedMeaning(p: seq<Entry>, cursor: Option<nat>)
    requires Sorted(p) && cursor.Some?
    ensures forall e :: e in p[..Passed(p, cursor)] ==> e.tag <= cursor.value
    ensures forall e :: e in p[Passed(p, cursor)..] ==> e.tag > cursor.value
  {
    var i := Passed(p, cursor);
    if i > 0 {
      PassedMeaning(p[1..], cursor);
      assert p[..i] == [p[0]] + p[1..][..i - 1] && p[i..] == p[1..][i - 1..];
    }
  }

  lemma {:induction false} WithoutSplits(a: seq<Entry>, b: seq<Entry>, tag: nat)
    ensures Without(a + b, tag) == Without(a, tag) + Without(b, tag)
  {
    if a == [] {
      assert a + b == b;
    } else {
      assert (a + b)[1..] == a[1..] + b;
      WithoutSplits(a[1..], b, tag);
    }
  }

  lemma {:induction false} WithoutNone(p: seq<Entry>, tag: nat)
    requires forall e :: e in p ==> e.tag != tag
    ensures Without(p, tag) == p
  {
    if p != [] { WithoutNone(p[1..], tag); }
  }

  lemma Cut(s: State) returns (head: seq<Entry>, tail: seq<Entry>)
    requires Sorted(s.pending)
    ensures CutAt(s, head, tail) && Rotated(s) == tail + head
  {
    var i := Passed(s.pending, s.cursor);
    head, tail := s.pending[..i], s.pending[i..];
    assert s.pending == head + tail;
    if s.cursor.Some? { PassedMeaning(s.pending, s.cursor); }
  }

  lemma RemoveValid(s: State, tag: nat)
    requires Valid(s)
    ensures Valid(Remove(s, tag))
  {
    WithoutSorted(s.pending, tag);
  }

  lemma CutWithout(s: State, head: seq<Entry>, tail: seq<Entry>, tag: nat)
    requires CutAt(s, head, tail) && Remove(s, tag).pending != []
    ensures CutAt(Remove(s, tag), Without(head, tag), Without(tail, tag))
  {
    WithoutSplits(head, tail, tag);
  }

  /** Taking a request away leaves the others in order. */
  lemma RemoveRotates(s: State, tag: nat)
    requires Valid(s)
    ensures Rotated(Remove(s, tag)) == Without(Rotated(s), tag)
  {
    var s' := Remove(s, tag);
    RemoveValid(s, tag);
    var head, tail := Cut(s);
    WithoutSplits(tail, head, tag);
    if s'.pending == [] {
      WithoutSplits(head, tail, tag);
      EmptyRotated(s');
    } else {
      CutWithout(s, head, tail, tag);
      hide CutAt, Without, Rotated, Remove;
      RotatedAt(s', Without(head, tag), Without(tail, tag));
    }
  }

  /** A new request gets at most one place ahead of those that wait. */
  lemma AddRotates(s: State, e: Entry, d: nat, added: Entry)
    requires Valid(s) && added.tag == s.tag + 1 && IsAt(Rotated(s), d, e)
    ensures var s' := State(s.tag + 1, s.pending + [added], s.cursor);
            Valid(s') && (IsAt(Rotated(s'), d, e) || IsAt(Rotated(s'), d + 1, e))
  {
    hide Passed, Rotated;
    AddValid(s, added);
    var s' := State(s.tag + 1, s.pending + [added], s.cursor);
    var head, tail := Cut(s);
    Associative(head, tail, [added]);
    RotatedAt(s', head, tail + [added]);
    Inserted(head, tail, added, d);
  }

  lemma AddValid(s: State, added: Entry)
    requires Valid(s) && added.tag == s.tag + 1
    ensures Valid(State(s.tag + 1, s.pending + [added], s.cursor))
  {
    forall i | 0 <= i < |s.pending| ensures s.pending[i].tag < added.tag { assert s.pending[i] in s.pending; }
  }

  lemma Inserted(head: seq<Entry>, tail: seq<Entry>, x: Entry, d: nat)
    requires d < |tail + head|
    ensures var r := tail + [x] + head;
            (tail + head)[d] == r[if d < |tail| then d else d + 1]
  {
  }

  lemma {:induction false} WithoutMoves(r: seq<Entry>, tag: nat, e: Entry, d: nat) returns (k: nat)
    requires IsAt(r, d, e) && e.tag != tag
    ensures k <= d && IsAt(Without(r, tag), k, e)
  {
    if d == 0 {
      k := 0;
    } else {
      k := WithoutMoves(r[1..], tag, e, d - 1);
      if r[0].tag != tag { k := k + 1; }
    }
  }

  lemma OperateValid(s: State, m: Message)
    requires Valid(s)
    ensures Valid(Operate(s, m))
    ensures forall e :: e in Operate(s, m).pending ==> e in s.pending || e.tag == s.tag + 1
    ensures s.tag <= Operate(s, m).tag
  {
    hide Valid;
    match m
    case Call(port, sent) =>
      AddValid(s, Entry(s.tag + 1, port));
      if !sent { RemoveValid(State(s.tag + 1, s.pending + [Entry(s.tag + 1, port)], s.cursor), s.tag + 1); }
    case Cast =>
    case CallReply(tag) => RemoveValid(s, tag);
  }

  /** What is done with the message moves a waiting request back by at most one place. */
  lemma OperateMoves(s: State, m: Message, e: Entry, d: nat) returns (k: nat)
    requires Valid(s) && IsAt(Rotated(s), d, e)
    ensures e !in Operate(s, m).pending || (k <= d + 1 && IsAt(Rotated(Operate(s, m)), k, e))
  {
    hide Rotated, Valid;
    k := d;
    match m
    case Call(port, sent) =>
      var added := Entry(s.tag + 1, port);
      var called := State(s.tag + 1, s.pending + [added], s.cursor);
      AddRotates(s, e, d, added);
      if !IsAt(Rotated(called), d, e) { k := d + 1; }
      if !sent && e.tag != s.tag + 1 {
        RemoveRotates(called, s.tag + 1);
        k := WithoutMoves(Rotated(called), s.tag + 1, e, k);
      }
    case Cast =>
    case CallReply(tag) =>
      RemoveRotates(s, tag);
      if e.tag != tag { k := WithoutMoves(Rotated(s), tag, e, d); }
  }

  /** One handled message: an abandoned request that is inspected goes; any other moves up by
      at least fifteen places. */
  lemma OneMessage(s: State, closed: set<Port>, m: Message, e: Entry, d: nat) returns (k: nat)
    requires Valid(s) && IsAt(Rotated(s), d, e) && e.port in closed && e in s.pending
    ensures e !in Handle(s, closed, m).pending || (d >= BUDGET && k + 15 <= d && IsAt(Rotated(Handle(s, closed, m)), k, e))
  {
    assert e.tag <= s.tag;
    k := 0;
    hide Kept, Sweep, Operate, Valid, Rotated, Min;
    var t := Sweep(s, closed);
    SweepMeaning(s, closed, e);
    SweepTakes(s, closed);
    OperateValid(t, m);
    if d < |Inspected(s)| {
      assert Inspected(s)[d] == e by { assert Inspected(s)[d] == Rotated(s)[d]; }
    } else {
      assert |Inspected(s)| == BUDGET by { Budget(s, d); }
      SweepRotates(s, closed);
      assert Rotated(s)[BUDGET..][d - BUDGET] == e;
      k := OperateMoves(t, m, e, d - BUDGET);
    }
  }

  lemma Budget(s: State, d: nat)
    requires |Inspected(s)| <= d < |s.pending|
    ensures |Inspected(s)| == BUDGET
  {
  }

  lemma SweepTakes(s: State, closed: set<Port>)
    ensures Sweep(s, closed).tag == s.tag && forall e :: e in Sweep(s, closed).pending ==> e in s.pending
  {
  }

  lemma HandleValid(s: State, closed: set<Port>, m: Message, e: Entry)
    requires Valid(s)
    ensures Valid(Handle(s, closed, m)) && s.tag <= Handle(s, closed, m).tag
    ensures e !in s.pending && e.tag <= s.tag ==> e !in Handle(s, closed, m).pending
  {
    SweepMeaning(s, closed, e);
    OperateValid(Sweep(s, closed), m);
  }

  /** A handled message, and the callers that have given up by then. */
  datatype Step = Step(closed: set<Port>, message: Message)

  function Run(s: State, steps: seq<Step>): State
    decreases |steps|
  {
    if steps == [] then s else Run(Handle(s, steps[0].closed, steps[0].message), steps[1..])
  }

  lemma {:induction false} StaysGone(s: State, e: Entry, steps: seq<Step>)
    requires Valid(s) && e !in s.pending && e.tag <= s.tag
    ensures e !in Run(s, steps).pending
    decreases |steps|
  {
    if steps != [] {
      hide Handle, Valid;
      HandleValid(s, steps[0].closed, steps[0].message, e);
      StaysGone(Handle(s, steps[0].closed, steps[0].message), e, steps[1..]);
    }
  }

  lemma {:induction false} ReclaimedFrom(s: State, e: Entry, d: nat, k: nat, steps: seq<Step>)
    requires Valid(s) && e in s.pending && IsAt(Rotated(s), d, e) && d < BUDGET + 15 * k && |steps| >= k + 1
    requires forall i :: 0 <= i < |steps| ==> e.port in steps[i].closed
    ensures e !in Run(s, steps).pending
    decreases |steps|
  {
    var s' := Handle(s, steps[0].closed, steps[0].message);
    assert e.tag <= s.tag;
    hide Handle, Valid, Rotated;
    HandleValid(s, steps[0].closed, steps[0].message, e);
    var d' := OneMessage(s, steps[0].closed, steps[0].message, e, d);
    if e !in s'.pending {
      StaysGone(s', e, steps[1..]);
    } else {
      ReclaimedFrom(s', e, d', k - 1, steps[1..]);
    }
  }

  lemma PlaceOf(s: State, e: Entry) returns (d: nat)
    requires e in s.pending
    ensures IsAt(Rotated(s), d, e)
  {
    var i := Passed(s.pending, s.cursor);
    assert s.pending == s.pending[..i] + s.pending[i..];
    assert e in Rotated(s);
    d :| 0 <= d < |Rotated(s)| && Rotated(s)[d] == e;
  }

  /** How many messages it takes at most, with `n` requests pending. */
  function Bound(n: nat): nat { if n <= BUDGET then 1 else (n - 2) / 15 + 1 }

  lemma BoundIsClose(n: nat)
    ensures Bound(n) <= (n + 14) / 15 + 1
    ensures n < BUDGET + 15 * (Bound(n) - 1) + 1
  {
  }

  /** A request whose caller has given up is gone after a number of messages that depends only
      on how many requests were pending, however many new requests those messages bring. */
  lemma AbandonedRequestIsReclaimed(s: State, e: Entry, steps: seq<Step>)
    requires Valid(s) && e in s.pending && |steps| >= Bound(|s.pending|)
    requires forall i :: 0 <= i < |steps| ==> e.port in steps[i].closed
    ensures e !in Run(s, steps).pending
  {
    var d := PlaceOf(s, e);
    BoundIsClose(|s.pending|);
    hide Valid, Rotated;
    ReclaimedFrom(s, e, d, Bound(|s.pending|) - 1, steps);
  }

  // ------------------------------------------------------------------ replies reach their callers

  /** The ports of all calls so far: the call with tag `t` is the `t`-th. */
  function Calls(steps: seq<Step>): seq<Port>
  {
    if steps == [] then []
    else (if steps[0].message.Call? then [steps[0].message.port] else []) + Calls(steps[1..])
  }

  /** The reply port that a message is sent to, if any. */
  function Answered(s: State, step: Step): (r: seq<Entry>)
    ensures |r| <= 1
    ensures forall x :: x in r ==> step.message == CallReply(x.tag) && x in Sweep(s, step.closed).pending
  {
    if step.message.CallReply? then Lookup(Sweep(s, step.closed).pending, step.message.tag) else []
  }

  function Lookup(p: seq<Entry>, tag: nat): (r: seq<Entry>)
    ensures |r| <= 1 && forall x :: x in r ==> x in p && x.tag == tag
  {
    if p == [] then [] else if p[0].tag == tag then [p[0]] else Lookup(p[1..], tag)
  }

  lemma TagIsEntry(s: State, e: Entry)
    requires Valid(s) && e in s.pending
    ensures forall x :: x in s.pending && x.tag == e.tag ==> x == e
  {
    var i :| 0 <= i < |s.pending| && s.pending[i] == e;
  }

  lemma {:induction false} LookupFinds(p: seq<Entry>, e: Entry)
    requires forall x :: x in p && x.tag == e.tag ==> x == e
    ensures Lookup(p, e.tag) == if e in p then [e] else []
  {
    if p != [] { LookupFinds(p[1..], e); }
  }

  function Answers(s: State, steps: seq<Step>): seq<Entry>
    decreases |steps|
  {
    if steps == [] then []
    else Answered(s, steps[0]) + Answers(Handle(s, steps[0].closed, steps[0].message), steps[1..])
  }

  predicate Recorded(s: State, calls: seq<Port>)
  {
    Valid(s) && s.tag == |calls| && forall e :: e in s.pending ==> 1 <= e.tag <= |calls| && calls[e.tag - 1] == e.port
  }

  function Added(m: Message): seq<Port> { if m.Call? then [m.port] else [] }

  lemma OperateRecorded(s: State, calls: seq<Port>, m: Message)
    requires Recorded(s, calls)
    ensures Recorded(Operate(s, m), calls + Added(m))
    ensures m.CallReply? ==> forall e :: e in Operate(s, m).pending ==> e.tag != m.tag
  {
    OperateValid(s, m);
    hide Valid;
    match m
    case Call(port, sent) =>
      assert (calls + [port])[s.tag] == port;
      if sent { assert Operate(s, m).pending == s.pending + [Entry(s.tag + 1, port)]; }
    case Cast => assert calls + Added(m) == calls;
    case CallReply(tag) => assert calls + Added(m) == calls;
  }

  lemma SweepRecorded(s: State, calls: seq<Port>, closed: set<Port>)
    requires Recorded(s, calls)
    ensures Recorded(Sweep(s, closed), calls)
  {
    SweepValid(s, closed);
    SweepTakes(s, closed);
  }

  lemma HandleRecorded(s: State, calls: seq<Port>, step: Step)
    requires Recorded(s, calls)
    ensures Recorded(Handle(s, step.closed, step.message), calls + Added(step.message))
    ensures forall x :: x in Answered(s, step) ==> 1 <= x.tag <= |calls| && calls[x.tag - 1] == x.port
    ensures forall x :: x in Answered(s, step) ==> forall e :: e in Handle(s, step.closed, step.message).pending ==> e.tag != x.tag
  {
    hide Sweep, Operate, Valid;
    SweepRecorded(s, calls, step.closed);
    OperateRecorded(Sweep(s, step.closed), calls, step.message);
  }

  lemma {:induction false} NeverAgain(s: State, steps: seq<Step>, tag: nat)
    requires Valid(s) && tag <= s.tag && forall e :: e in s.pending ==> e.tag != tag
    ensures forall x :: x in Answers(s, steps) ==> x.tag != tag
    decreases |steps|
  {
    if steps != [] {
      var t := Sweep(s, steps[0].closed);
      SweepTakes(s, steps[0].closed);
      SweepValid(s, steps[0].closed);
      OperateValid(t, steps[0].message);
      hide Valid, Sweep, Operate;
      NeverAgain(Handle(s, steps[0].closed, steps[0].message), steps[1..], tag);
    }
  }

  lemma Unfold(s: State, calls: seq<Port>, steps: seq<Step>)
    requires steps != []
    ensures Answers(s, steps) == Answered(s, steps[0]) + Answers(Handle(s, steps[0].closed, steps[0].message), steps[1..])
    ensures calls + Calls(steps) == (calls + Added(steps[0].message)) + Calls(steps[1..])
  {
  }

  predicate Home(x: Entry, calls: seq<Port>) { 1 <= x.tag <= |calls| && calls[x.tag - 1] == x.port }

  lemma {:induction false} AnswersGoHome(s: State, calls: seq<Port>, steps: seq<Step>)
    requires Recorded(s, calls)
    ensures forall x :: x in Answers(s, steps) ==> Home(x, calls + Calls(steps))
    decreases |steps|
  {
    if steps != [] {
      hide Handle, Answered, Answers, Calls, Recorded, Added;
      Unfold(s, calls, steps);
      HandleRecorded(s, calls, steps[0]);
      AnswersGoHome(Handle(s, steps[0].closed, steps[0].message), calls + Added(steps[0].message), steps[1..]);
      forall x | x in Answered(s, steps[0]) ensures Home(x, calls + Calls(steps)) {
        assert (calls + Calls(steps))[x.tag - 1] == calls[x.tag - 1];
      }
    }
  }

  lemma DistinctAppend(now: seq<Entry>, rest: seq<Entry>)
    requires |now| <= 1 && forall x, y :: x in now && y in rest ==> x.tag != y.tag
    requires forall i, j :: 0 <= i < j < |rest| ==> rest[i].tag != rest[j].tag
    ensures forall i, j :: 0 <= i < j < |now + rest| ==> (now + rest)[i].tag != (now + rest)[j].tag
  {
    forall i, j | 0 <= i < j < |now + rest| ensures (now + rest)[i].tag != (now + rest)[j].tag {
      assert j >= |now| && (now + rest)[j] == rest[j - |now|] && rest[j - |now|] in rest;
      if i < |now| {
        assert (now + rest)[i] == now[i] && now[i] in now;
      } else {
        assert (now + rest)[i] == rest[i - |now|];
      }
    }
  }

  lemma {:induction false} AnsweredOnce(s: State, calls: seq<Port>, steps: seq<Step>)
    requires Recorded(s, calls)
    ensures forall i, j :: 0 <= i < j < |Answers(s, steps)| ==> Answers(s, steps)[i].tag != Answers(s, steps)[j].tag
    decreases |steps|
  {
    if steps != [] {
      hide Handle, Answered, Answers, Calls, Added;
      Unfold(s, calls, steps);
      HandleRecorded(s, calls, steps[0]);
      var s', now := Handle(s, steps[0].closed, steps[0].message), Answered(s, steps[0]);
      AnsweredOnce(s', calls + Added(steps[0].message), steps[1..]);
      forall x | x in now ensures forall y :: y in Answers(s', steps[1..]) ==> x.tag != y.tag {
        NeverAgain(s', steps[1..], x.tag);
      }
      DistinctAppend(now, Answers(s', steps[1..]));
    }
  }

  /** Every reply goes to the port of the very call it answers, and no call is answered twice. */
  lemma RepliesReachTheirCallers(steps: seq<Step>)
    ensures var answers := Answers(State(0, [], None), steps);
            && (forall x :: x in answers ==> 1 <= x.tag <= |Calls(steps)| && Calls(steps)[x.tag - 1] == x.port)
            && (forall i, j :: 0 <= i < j < |answers| ==> answers[i].tag != answers[j].tag)
  {
    AnswersGoHome(State(0, [], None), [], steps);
    AnsweredOnce(State(0, [], None), [], steps);
    assert [] + Calls(steps) == Calls(steps);
  }
}
