/**
 The factory's priority queue: one bucket per priority, standing for one queue of jobs in
 the order of their arrival.
 */
module Queues {
  /** A job and the index of its priority; index 0 is the most urgent. */
  datatype Job = Job(id: nat, priority: nat)

  // ------------------------------------------------------------------ one queue, by arrival

  /** The waiting jobs of one priority, oldest first. */
  function Of(s: seq<Job>, p: nat): seq<Job>
  {
    if s == [] then [] else Of(s[..|s| - 1], p) + if s[|s| - 1].priority == p then [s[|s| - 1]] else []
  }

  /** The oldest of the most urgent jobs. */
  predicate IsNext(s: seq<Job>, k: nat)
  {
    k < |s| && forall j :: 0 <= j < |s| ==> s[k].priority <= s[j].priority && (j < k ==> s[k].priority < s[j].priority)
  }

  function NextIndex(s: seq<Job>): (k: nat)
    requires s != []
    ensures IsNext(s, k)
  {
    if |s| == 1 then 0
    else
      var k := NextIndex(s[..|s| - 1]);
      if s[|s| - 1].priority < s[k].priority then |s| - 1 else k
  }

  /** The oldest of the least urgent jobs. */
  predicate IsLeast(s: seq<Job>, k: nat)
  {
    k < |s| && forall j :: 0 <= j < |s| ==> s[j].priority <= s[k].priority && (j < k ==> s[j].priority < s[k].priority)
  }

  function LeastIndex(s: seq<Job>): (k: nat)
    requires s != []
    ensures IsLeast(s, k)
  {
    if |s| == 1 then 0
    else
      var k := LeastIndex(s[..|s| - 1]);
      if s[|s| - 1].priority > s[k].priority then |s| - 1 else k
  }

  function RemoveAt(s: seq<Job>, k: nat): seq<Job>
    requires k < |s|
  {
    s[..k] + s[k + 1..]
  }

  /** The jobs that have not expired. */
  function Fresh(s: seq<Job>, expired: set<nat>): seq<Job>
  {
    if s == [] then [] else Fresh(s[..|s| - 1], expired) + if s[|s| - 1].id in expired then [] else [s[|s| - 1]]
  }

  // ------------------------------------------------------------------ the buckets follow

  lemma {:induction false} OfSplits(a: seq<Job>, b: seq<Job>, p: nat)
    ensures Of(a + b, p) == Of(a, p) + Of(b, p)
    decreases |b|
  {
    if b == [] {
      assert a + b == a;
    } else {
      assert (a + b)[..|a + b| - 1] == a + b[..|b| - 1];
      OfSplits(a, b[..|b| - 1], p);
    }
  }

  lemma {:induction false} OfNone(s: seq<Job>, p: nat)
    requires forall i :: 0 <= i < |s| ==> s[i].priority != p
    ensures Of(s, p) == []
  {
    if s != [] { OfNone(s[..|s| - 1], p); }
  }

  lemma {:induction false} OfMembers(s: seq<Job>, p: nat)
    ensures forall x :: x in Of(s, p) <==> x in s && x.priority == p
  {
    if s != [] {
      OfMembers(s[..|s| - 1], p);
      assert s == s[..|s| - 1] + [s[|s| - 1]];
    }
  }

  lemma OfOne(x: Job, p: nat)
    ensures Of([x], p) == if x.priority == p then [x] else []
  {
    assert [x][..0] == [];
  }

  /** The oldest job of a priority is the front of its bucket, and removing it pops the bucket. */
  lemma OldestIsFront(s: seq<Job>, k: nat)
    requires k < |s| && forall j :: 0 <= j < k ==> s[j].priority != s[k].priority
    ensures Of(s, s[k].priority) != [] && Of(s, s[k].priority)[0] == s[k]
    ensures forall p :: Of(RemoveAt(s, k), p) == if p == s[k].priority then Of(s, p)[1..] else Of(s, p)
  {
    hide Of;
    var a, b := s[..k], s[k + 1..];
    assert s == a + [s[k]] + b;
    forall p ensures Of(s, p) == Of(a, p) + Of([s[k]], p) + Of(b, p) && Of(RemoveAt(s, k), p) == Of(a, p) + Of(b, p) {
      OfSplits(a + [s[k]], b, p);
      OfSplits(a, [s[k]], p);
      OfSplits(a, b, p);
    }
    OfNone(a, s[k].priority);
    forall p ensures Of([s[k]], p) == if s[k].priority == p then [s[k]] else [] { OfOne(s[k], p); }
  }

  lemma {:induction false} FreshSplits(a: seq<Job>, b: seq<Job>, expired: set<nat>)
    ensures Fresh(a + b, expired) == Fresh(a, expired) + Fresh(b, expired)
    decreases |b|
  {
    if b == [] {
      assert a + b == a;
    } else {
      assert (a + b)[..|a + b| - 1] == a + b[..|b| - 1];
      FreshSplits(a, b[..|b| - 1], expired);
    }
  }

  lemma FreshOfOne(x: Job, expired: set<nat>, p: nat)
    ensures Of(Fresh([x], expired), p) == Fresh(Of([x], p), expired)
  {
    assert [x][..0] == [];
  }

  /** Expiry in the buckets is expiry in the whole, in order. */
  lemma {:induction false} FreshOf(s: seq<Job>, expired: set<nat>, p: nat)
    ensures Of(Fresh(s, expired), p) == Fresh(Of(s, p), expired)
    decreases |s|
  {
    if s != [] {
      hide Of, Fresh;
      var init, last := s[..|s| - 1], [s[|s| - 1]];
      assert s == init + last;
      FreshSplits(init, last, expired);
      OfSplits(Fresh(init, expired), Fresh(last, expired), p);
      OfSplits(init, last, p);
      FreshSplits(Of(init, p), Of(last, p), expired);
      FreshOf(init, expired, p);
      FreshOfOne(last[0], expired, p);
    }
  }

  // ------------------------------------------------------------------ popping everything is a stable sort

  function PopAll(s: seq<Job>): seq<Job>
    decreases |s|
  {
    if s == [] then [] else [s[NextIndex(s)]] + PopAll(RemoveAt(s, NextIndex(s)))
  }

  predicate Urgent(s: seq<Job>) { forall i, j :: 0 <= i < j < |s| ==> s[i].priority <= s[j].priority }

  ghost predicate SameBuckets(s: seq<Job>, t: seq<Job>) { forall p :: Of(s, p) == Of(t, p) }

  lemma SameMembers(s: seq<Job>, t: seq<Job>, x: Job)
    requires SameBuckets(s, t)
    ensures x in s <==> x in t
  {
    OfMembers(s, x.priority);
    OfMembers(t, x.priority);
    assert Of(s, x.priority) == Of(t, x.priority);
  }

  lemma PopAllStep(s: seq<Job>)
    requires s != []
    ensures PopAll(s) == [s[NextIndex(s)]] + PopAll(RemoveAt(s, NextIndex(s)))
  {
  }

  /** Popping until nothing is left gives the jobs by priority, and by arrival within each. */
  lemma {:induction false} PopAllIsStableSort(s: seq<Job>)
    ensures Urgent(PopAll(s)) && SameBuckets(PopAll(s), s)
    decreases |s|
  {
    if s != [] {
      hide Of, PopAll, SameBuckets, NextIndex;
      var k := NextIndex(s);
      var rest := RemoveAt(s, k);
      PopAllStep(s);
      PopAllIsStableSort(rest);
      forall x | x in PopAll(rest) ensures s[k].priority <= x.priority {
        SameMembers(PopAll(rest), rest, x);
        assert x in rest;
      }
      PushesBack(s, k, PopAll(rest));
    }
  }

  /** The oldest of a priority in front of the buckets of the others. */
  lemma PushesBack(s: seq<Job>, k: nat, rest: seq<Job>)
    requires k < |s| && (forall j :: 0 <= j < k ==> s[j].priority != s[k].priority) && SameBuckets(rest, RemoveAt(s, k))
    ensures SameBuckets([s[k]] + rest, s)
  {
    hide Of;
    OldestIsFront(s, k);
    forall p ensures Of([s[k]] + rest, p) == Of(s, p) {
      OfSplits([s[k]], rest, p);
      OfOne(s[k], p);
      assert Of(rest, p) == Of(RemoveAt(s, k), p);
      if p == s[k].priority { assert Of(s, p) == [Of(s, p)[0]] + Of(s, p)[1..]; }
    }
  }

  lemma FrontIs(s: seq<Job>)
    requires s != []
    ensures Of(s, s[0].priority) != [] && Of(s, s[0].priority)[0] == s[0]
    ensures forall p :: Of(s[1..], p) == if p == s[0].priority then Of(s, p)[1..] else Of(s, p)
  {
    OldestIsFront(s, 0);
    assert RemoveAt(s, 0) == s[1..];
  }

  /** There is only one such order. */
  lemma {:induction false} StableSortIsUnique(a: seq<Job>, b: seq<Job>)
    requires Urgent(a) && Urgent(b) && SameBuckets(a, b)
    ensures a == b
    decreases |a|
  {
    hide Of;
    if a == [] {
      if b != [] { SameMembers(a, b, b[0]); }
    } else {
      SameMembers(a, b, a[0]);
      assert b != [];
      SameMembers(a, b, b[0]);
      FrontIs(a);
      FrontIs(b);
      assert a[0].priority == b[0].priority;
      assert Of(a, a[0].priority) == Of(b, a[0].priority);
      StableSortIsUnique(a[1..], b[1..]);
      assert a == [a[0]] + a[1..] && b == [b[0]] + b[1..];
    }
  }

  // ------------------------------------------------------------------ no job is lost or doubled

  datatype Op = Push(job: Job) | Pop | Discard | Expire(expired: set<nat>)

  /** The waiting jobs, and all jobs that have come and gone. */
  datatype Ledger = Ledger(waiting: seq<Job>, pushed: multiset<Job>, popped: multiset<Job>,
                           discarded: multiset<Job>, expired: multiset<Job>)

  function Apply(l: Ledger, op: Op): Ledger
  {
    match op
    case Push(job) => l.(waiting := l.waiting + [job], pushed := l.pushed + multiset{job})
    case Pop =>
      if l.waiting == [] then l
      else var k := NextIndex(l.waiting);
           l.(waiting := RemoveAt(l.waiting, k), popped := l.popped + multiset{l.waiting[k]})
    case Discard =>
      if l.waiting == [] then l
      else var k := LeastIndex(l.waiting);
           l.(waiting := RemoveAt(l.waiting, k), discarded := l.discarded + multiset{l.waiting[k]})
    case Expire(ids) =>
      l.(waiting := Fresh(l.waiting, ids), expired := l.expired + multiset(Stale(l.waiting, ids)))
  }

  /** The jobs that have expired. */
  function Stale(s: seq<Job>, expired: set<nat>): seq<Job>
  {
    if s == [] then [] else Stale(s[..|s| - 1], expired) + if s[|s| - 1].id in expired then [s[|s| - 1]] else []
  }

  lemma {:induction false} FreshAndStale(s: seq<Job>, expired: set<nat>)
    ensures multiset(s) == multiset(Fresh(s, expired)) + multiset(Stale(s, expired))
  {
    if s != [] {
      FreshAndStale(s[..|s| - 1], expired);
      assert s == s[..|s| - 1] + [s[|s| - 1]];
    }
  }

  function ApplyAll(l: Ledger, ops: seq<Op>): Ledger
    decreases |ops|
  {
    if ops == [] then l else ApplyAll(Apply(l, ops[0]), ops[1..])
  }

  predicate Balanced(l: Ledger)
  {
    l.pushed == l.popped + l.discarded + l.expired + multiset(l.waiting)
  }

  lemma RemovedIsLess(s: seq<Job>, k: nat)
    requires k < |s|
    ensures multiset(s) == multiset(RemoveAt(s, k)) + multiset{s[k]}
  {
    assert s == s[..k] + [s[k]] + s[k + 1..];
  }

  lemma ApplyBalances(l: Ledger, op: Op)
    requires Balanced(l)
    ensures Balanced(Apply(l, op))
  {
    match op
    case Push(_) =>
    case Expire(ids) => FreshAndStale(l.waiting, ids);
    case Pop => if l.waiting != [] { RemovedIsLess(l.waiting, NextIndex(l.waiting)); }
    case Discard => if l.waiting != [] { RemovedIsLess(l.waiting, LeastIndex(l.waiting)); }
  }

  /** In every run the pushed jobs are the popped, the discarded, the expired and the waiting. */
  lemma {:induction false} JobsAreConserved(l: Ledger, ops: seq<Op>)
    requires Balanced(l)
    ensures Balanced(ApplyAll(l, ops))
    decreases |ops|
  {
    if ops != [] {
      ApplyBalances(l, ops[0]);
      JobsAreConserved(Apply(l, ops[0]), ops[1..]);
    }
  }
}
