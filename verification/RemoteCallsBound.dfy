/**
 The bound on how long an abandoned request stays is met exactly, for every number of pending
 requests: some run leads to that many, and new calls then keep the oldest of them for one
 message less than the bound.
 */
module RemoteCallsBound {
  import opened Options
  import opened RemoteCalls

  /** Every caller is known by the tag of its call. */
  function Fresh(n: nat): (p: seq<Entry>)
    ensures |p| == n && forall i :: 0 <= i < n ==> p[i] == Entry(i + 1, i + 1)
  {
    if n == 0 then [] else Fresh(n - 1) + [Entry(n, n)]
  }

  // ------------------------------------------------------------------ a sweep that finds nobody gone

  lemma {:induction false} KeptOpen(p: seq<Entry>, inspected: seq<Entry>, closed: set<Port>)
    requires forall e :: e in inspected ==> e.port !in closed
    ensures Kept(p, inspected, closed) == p
  {
    if p != [] { KeptOpen(p[1..], inspected, closed); }
  }

  lemma OpenSweep(s: State, closed: set<Port>)
    requires s.pending != [] && forall e :: e in Inspected(s) ==> e.port !in closed
    ensures var n := Min(|s.pending|, BUDGET);
            Sweep(s, closed) == s.(cursor := Some(Rotated(s)[n - 1].tag))
  {
    KeptOpen(s.pending, Inspected(s), closed);
    hide Rotated, Kept;
  }

  // ------------------------------------------------------------------ any number of requests

  function Calling(n: nat): seq<Step>
  {
    if n == 0 then [] else Calling(n - 1) + [Step({}, Call(n, true))]
  }

  lemma {:induction false} RunAppend(s: State, first: seq<Step>, second: seq<Step>)
    ensures Run(s, first + second) == Run(Run(s, first), second)
    decreases |first|
  {
    hide Handle;
    if first == [] {
      assert first + second == second;
    } else {
      assert (first + second)[1..] == first[1..] + second;
      RunAppend(Handle(s, first[0].closed, first[0].message), first[1..], second);
    }
  }

  lemma RunOne(s: State, step: Step)
    ensures Run(s, [step]) == Handle(s, step.closed, step.message)
  {
    hide Handle;
    assert Run(Handle(s, step.closed, step.message), []) == Handle(s, step.closed, step.message);
  }

  lemma CallAdds(s: State, n: nat)
    requires s == State(n, Fresh(n), s.cursor) && Valid(s)
    ensures var s' := Handle(s, {}, Call(n + 1, true));
            s' == State(n + 1, Fresh(n + 1), s'.cursor) && Valid(s')
  {
    hide Sweep, Valid, Fresh;
    SweepValid(s, {});
    OperateValid(Sweep(s, {}), Call(n + 1, true));
    if n > 0 { OpenSweep(s, {}); } else { EmptySweep(s); }
    assert Fresh(n + 1) == Fresh(n) + [Entry(n + 1, n + 1)];
  }

  lemma {:induction false} Called(n: nat)
    ensures var s := Run(State(0, [], None), Calling(n));
            s == State(n, Fresh(n), s.cursor) && Valid(s)
  {
    hide Handle, Run, Valid;
    if n == 0 {
      EmptyRun();
    } else {
      Called(n - 1);
      var s := Run(State(0, [], None), Calling(n - 1));
      RunAppend(State(0, [], None), Calling(n - 1), [Step({}, Call(n, true))]);
      RunOne(s, Step({}, Call(n, true)));
      CallAdds(s, n - 1);
    }
  }

  lemma EmptyRun()
    ensures Run(State(0, [], None), []) == State(0, [], None) && Valid(State(0, [], None))
  {
  }

  lemma EmptySweep(s: State)
    requires s.pending == []
    ensures Sweep(s, {}) == s.(cursor := None)
  {
  }

  // ------------------------------------------------------------------ round and round

  /** `n` requests, of which the first `i` have been passed. */
  function Ring(n: nat, i: nat): State { State(n, Fresh(n), Some(i)) }

  function Onward(n: nat, i: nat): nat { if i + BUDGET <= n then i + BUDGET else i + BUDGET - n }

  lemma FreshSorted(n: nat)
    ensures Sorted(Fresh(n)) && forall e :: e in Fresh(n) ==> 1 <= e.tag == e.port <= n
  {
  }

  lemma RingRotated(n: nat, i: nat)
    requires 1 <= i <= n
    ensures Rotated(Ring(n, i)) == Fresh(n)[i..] + Fresh(n)[..i]
  {
    FreshSorted(n);
    PassedIs(Fresh(n), Some(i), i);
  }

  /** A cast passes sixteen more. */
  lemma CastPasses(n: nat, i: nat)
    requires 1 <= i <= n && n > BUDGET
    ensures Handle(Ring(n, i), {}, Cast) == Ring(n, Onward(n, i)) && 1 <= Onward(n, i) <= n
  {
    RingRotated(n, i);
    OpenSweep(Ring(n, i), {});
    hide Rotated, Sweep;
    var r := Rotated(Ring(n, i));
    assert r[BUDGET - 1] == if i + BUDGET <= n then Fresh(n)[i + BUDGET - 1] else Fresh(n)[i + BUDGET - 1 - n];
  }

  /** From `i`, `j` casts later `i + 16 j` have been passed, counted round `k` times. */
  lemma {:induction false} CastsPass(n: nat, i: nat, j: nat, k: nat, to: nat) returns (steps: seq<Step>)
    requires 1 <= i <= n && 1 <= to <= n && n > BUDGET && i + BUDGET * j == to + k * n
    ensures |steps| == j && Run(Ring(n, i), steps) == Ring(n, to)
    ensures forall x :: x in steps ==> x == Step({}, Cast)
    decreases j
  {
    hide Handle, Ring;
    if j == 0 {
      SameRound(n, i, to, k);
      steps := [];
    } else {
      CastPasses(n, i);
      var k' := if i + BUDGET <= n then k else k - 1;
      OneRoundLess(n, i, j, k, to);
      var rest := CastsPass(n, Onward(n, i), j - 1, k', to);
      steps := [Step({}, Cast)] + rest;
      assert steps[1..] == rest;
    }
  }

  lemma SameRound(n: nat, i: nat, to: nat, k: nat)
    requires 1 <= i <= n && 1 <= to <= n && i == to + k * n
    ensures i == to
  {
    Multiple(k, n);
  }

  lemma Multiple(k: nat, n: nat)
    ensures k >= 1 ==> k * n >= n
  {
  }

  lemma OneRoundLess(n: nat, i: nat, j: nat, k: nat, to: nat)
    requires 1 <= i <= n && 1 <= to <= n && n > BUDGET && j >= 1 && i + BUDGET * j == to + k * n
    ensures i + BUDGET > n ==> k >= 1
    ensures Onward(n, i) + BUDGET * (j - 1) == to + (if i + BUDGET <= n then k else k - 1) * n
  {
    assert (k - 1) * n == k * n - n;
  }

  function Half(n: nat, r: nat): nat { if r % 2 == 0 then r / 2 else (r + n) / 2 }

  lemma Halved(n: nat, r: nat)
    requires n % 2 == 1 && r < n
    ensures Half(n, r) < n && (2 * Half(n, r) == r || 2 * Half(n, r) == r + n)
  {
  }

  /** Sixteen steps at a time reach every place of a ring of odd length. */
  lemma SixteenReach(n: nat, r: nat) returns (j: nat, k: nat)
    requires n % 2 == 1 && r < n
    ensures 16 * j == r + k * n
  {
    var a := Half(n, r);
    var b := Half(n, a);
    var c := Half(n, b);
    j := Half(n, c);
    Halved(n, r);
    Halved(n, a);
    Halved(n, b);
    Halved(n, c);
    k := (if 2 * a == r then 0 else 1) + (if 2 * b == a then 0 else 2)
       + (if 2 * c == b then 0 else 4) + if 2 * j == c then 0 else 8;
    Rounds(n, r, a, b, c, j, k);
  }

  lemma Rounds(n: nat, r: nat, a: nat, b: nat, c: nat, j: nat, k: nat)
    requires 2 * a == r || 2 * a == r + n
    requires 2 * b == a || 2 * b == a + n
    requires 2 * c == b || 2 * c == b + n
    requires 2 * j == c || 2 * j == c + n
    requires k == (if 2 * a == r then 0 else 1) + (if 2 * b == a then 0 else 2)
                + (if 2 * c == b then 0 else 4) + (if 2 * j == c then 0 else 8)
    ensures 16 * j == r + k * n
  {
    var u, v, w, x := if 2 * a == r then 0 else 1, if 2 * b == a then 0 else 2, if 2 * c == b then 0 else 4, if 2 * j == c then 0 else 8;
    assert u * n + v * n + w * n + x * n == (u + v + w + x) * n;
  }

  lemma HowFar(n: nat, i: nat, to: nat) returns (j: nat, k: nat)
    requires 1 <= i <= n && 1 <= to <= n && n % 2 == 1
    ensures i + BUDGET * j == to + k * n
  {
    var r := if i <= to then to - i else to + n - i;
    j, k := SixteenReach(n, r);
    if i > to {
      assert (k + 1) * n == k * n + n;
      k := k + 1;
    }
  }

  /** On a ring of odd length casts can bring any place to any other, and take at least one. */
  lemma CastsReach(n: nat, i: nat, to: nat) returns (steps: seq<Step>)
    requires 1 <= i <= n && 1 <= to <= n && n > BUDGET && n % 2 == 1
    ensures steps != [] && Run(Ring(n, i), steps) == Ring(n, to)
    ensures forall x :: x in steps ==> x == Step({}, Cast)
  {
    hide Handle, Ring;
    CastPasses(n, i);
    var j, k := HowFar(n, Onward(n, i), to);
    var rest := CastsPass(n, Onward(n, i), j, k, to);
    steps := [Step({}, Cast)] + rest;
    assert steps[1..] == rest;
  }

  // ------------------------------------------------------------------ the oldest request is kept waiting

  const OLDEST := Entry(1, 1)

  /** The oldest request is inspected after `d` others. */
  ghost predicate WaitsFor(s: State, d: nat)
  {
    && Valid(s) && s.cursor.Some? && s.cursor.value >= 1
    && s.pending != [] && s.pending[0] == OLDEST && (forall e :: e in s.pending ==> e.port == e.tag)
    && d < |s.pending| && Passed(s.pending, s.cursor) == |s.pending| - d
  }

  lemma OthersFirst(s: State, d: nat)
    requires WaitsFor(s, d) && d >= BUDGET
    ensures var i := |s.pending| - d;
            && Rotated(s)[BUDGET - 1] == s.pending[i + BUDGET - 1]
            && forall e :: e in Inspected(s) ==> e.port !in {1}
  {
    var p, i := s.pending, |s.pending| - d;
    var y := Inspected(s);
    assert y == p[i..i + BUDGET];
    forall e | e in y ensures e.port !in {1} {
      var j :| 0 <= j < |y| && y[j] == e;
      assert p[0].tag < p[i + j].tag && p[i + j] in p;
    }
  }

  lemma KeptWaiting(s: State, d: nat)
    requires WaitsFor(s, d) && d >= BUDGET
    ensures WaitsFor(Handle(s, {1}, Call(s.tag + 1, true)), d - 15)
  {
    hide Sweep, Rotated, Inspected, Passed;
    var p, i := s.pending, |s.pending| - d;
    OthersFirst(s, d);
    OpenSweep(s, {1});
    SweepValid(s, {1});
    var t := Sweep(s, {1});
    OperateValid(t, Call(s.tag + 1, true));
    var s' := Handle(s, {1}, Call(s.tag + 1, true));
    assert p[i + BUDGET - 1] in p;
    StillPassed(s', i + BUDGET);
  }

  lemma StillPassed(s: State, i: nat)
    requires Sorted(s.pending) && 1 <= i < |s.pending| && s.cursor == Some(s.pending[i - 1].tag)
    ensures Passed(s.pending, s.cursor) == i
  {
    PassedIs(s.pending, s.cursor, i);
  }

  lemma OldestIsPending(s: State, d: nat)
    requires WaitsFor(s, d)
    ensures OLDEST in s.pending
  {
    assert s.pending[0] in s.pending;
  }

  lemma {:induction false} KeptWaitingFor(s: State, d: nat, m: nat) returns (steps: seq<Step>)
    requires WaitsFor(s, d) && (m > 0 ==> d >= BUDGET + 15 * (m - 1))
    ensures |steps| == m && (forall i :: 0 <= i < m ==> OLDEST.port in steps[i].closed)
    ensures OLDEST in Run(s, steps).pending
    decreases m
  {
    hide WaitsFor, Handle;
    if m == 0 {
      steps := [];
      OldestIsPending(s, d);
    } else {
      KeptWaiting(s, d);
      var step := Step({1}, Call(s.tag + 1, true));
      var rest := KeptWaitingFor(Handle(s, step.closed, step.message), d - 15, m - 1);
      steps := [step] + rest;
      assert steps[1..] == rest;
    }
  }

  // ------------------------------------------------------------------ the bound is reached

  lemma RingWaits(n: nat)
    requires n >= 1
    ensures WaitsFor(Ring(n, 1), n - 1)
  {
    FreshSorted(n);
    PassedIs(Fresh(n), Some(1), 1);
  }

  lemma WithoutOne(a: seq<Entry>, x: Entry, b: seq<Entry>)
    requires forall e :: e in a || e in b ==> e.tag != x.tag
    ensures Without(a + ([x] + b), x.tag) == a + b
  {
    hide Without;
    WithoutNone(a, x.tag);
    WithoutNone(b, x.tag);
    WithoutSplits(a, [x] + b, x.tag);
    WithoutHead(x, b);
  }

  lemma WithoutHead(x: Entry, b: seq<Entry>)
    ensures Without([x] + b, x.tag) == Without(b, x.tag)
  {
    var p := [x] + b;
    assert p[0] == x && p[1..] == b;
    assert Without(p, x.tag) == [] + Without(b, x.tag);
  }

  lemma DropSecond(n: nat)
    requires n >= 2
    ensures Without(Fresh(n), 2) == Fresh(n)[..1] + Fresh(n)[2..]
  {
    hide Fresh, Without;
    assert Fresh(n) == Fresh(n)[..1] + ([Entry(2, 2)] + Fresh(n)[2..]);
    WithoutOne(Fresh(n)[..1], Entry(2, 2), Fresh(n)[2..]);
  }

  /** Answering the second call leaves one request fewer and the oldest last. */
  lemma AnsweredWaits(n: nat)
    requires n > BUDGET
    ensures WaitsFor(Remove(Ring(n, 1), 2), n - 2) && |Remove(Ring(n, 1), 2).pending| == n - 1
  {
    hide Fresh, Passed, Without;
    FreshSorted(n);
    DropSecond(n);
    RemoveValid(Ring(n, 1), 2);
    var p := Remove(Ring(n, 1), 2).pending;
    assert p[0] == OLDEST && p[1] == Entry(3, 3);
    PassedIs(p, Some(1), 1);
  }

  /** A run, nobody having given up, after which an odd number of requests are pending and one
      more cast makes the oldest the last to be inspected. */
  lemma NearlyRound(size: nat) returns (steps: seq<Step>)
    requires size > BUDGET && size % 2 == 1
    ensures Handle(Run(State(0, [], None), steps), {}, Cast) == Ring(size, 1)
    ensures forall x :: x in steps ==> x.closed == {}
  {
    hide Run, Handle, Valid, Ring;
    var start, calls, first := State(0, [], None), Calling(size), Step({}, Cast);
    Called(size);
    CallingOpen(size);
    var i := FirstCast(Run(start, calls), size);
    RunOne(Run(start, calls), first);
    RunAppend(start, calls, [first]);
    var turns := CastsReach(size, i, 1);
    var before, last := turns[..|turns| - 1], turns[|turns| - 1];
    assert turns == before + [last] && last in turns;
    RunAppend(Ring(size, i), before, [last]);
    RunOne(Run(Ring(size, i), before), last);
    RunAppend(start, calls + [first], before);
    assert forall x :: x in before ==> x in turns;
    steps := calls + [first] + before;
  }

  /** A run, nobody having given up, after which `n` requests are pending and the oldest is the
      last to be inspected. */
  lemma LastToBeInspected(n: nat) returns (steps: seq<Step>)
    requires n > BUDGET
    ensures var s := Run(State(0, [], None), steps); |s.pending| == n && WaitsFor(s, n - 1)
    ensures forall x :: x in steps ==> x.closed == {}
  {
    hide Run, Handle, WaitsFor;
    var size := if n % 2 == 1 then n else n + 1;
    var last := Step({}, if n == size then Cast else CallReply(2));
    var before := NearlyRound(size);
    var s := Run(State(0, [], None), before);
    RunAppend(State(0, [], None), before, [last]);
    RunOne(s, last);
    AnsweredLast(s, 2);
    RingWaits(size);
    AnsweredWaits(size);
    steps := before + [last];
  }

  lemma {:induction false} CallingOpen(n: nat)
    ensures forall x :: x in Calling(n) ==> x.closed == {}
  {
    if n > 0 { CallingOpen(n - 1); }
  }

  lemma AnsweredLast(s: State, tag: nat)
    ensures Handle(s, {}, CallReply(tag)) == Remove(Handle(s, {}, Cast), tag)
  {
  }

  lemma FirstCast(s: State, n: nat) returns (i: nat)
    requires s == State(n, Fresh(n), s.cursor) && n > BUDGET
    ensures 1 <= i <= n && Handle(s, {}, Cast) == Ring(n, i)
  {
    OpenSweep(s, {});
    FreshSorted(n);
    i := Rotated(s)[BUDGET - 1].tag;
    assert Rotated(s)[BUDGET - 1] in Fresh(n);
  }

  /** For every number of pending requests there is a run that leads to so many and a request
      that, abandoned then, is still there one message before the bound. */
  lemma BoundIsReached(n: nat) returns (steps: seq<Step>, e: Entry, more: seq<Step>)
    requires n >= 1
    ensures var s := Run(State(0, [], None), steps);
            && |s.pending| == n && e in s.pending && (forall x :: x in steps ==> x.closed == {})
            && |more| == Bound(n) - 1 && (forall i :: 0 <= i < |more| ==> e.port in more[i].closed)
            && e in Run(s, more).pending
  {
    e := OLDEST;
    if n <= BUDGET {
      steps, more := Calling(n), [];
      Called(n);
      CallingOpen(n);
      assert Fresh(n)[0] in Fresh(n);
    } else {
      steps := LastToBeInspected(n);
      var s := Run(State(0, [], None), steps);
      more := KeptWaitingFor(s, n - 1, Bound(n) - 1);
      OldestIsPending(s, n - 1);
    }
  }
}
