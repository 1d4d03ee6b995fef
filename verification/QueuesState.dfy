/**
 The priority queue as an array of buckets, each operation proved to be the operation on the
 one arrival-ordered queue that the buckets stand for.
 */
module QueuesState {
  import opened Options
  import opened Queues

  class PriorityQueue {
    const buckets: array<seq<Job>>
    ghost var waiting: seq<Job>      // all waiting jobs, in the order of arrival

    ghost predicate Valid()
      reads this, buckets
    {
      && (forall p :: 0 <= p < buckets.Length ==> buckets[p] == Of(waiting, p))
      && (forall x :: x in waiting ==> x.priority < buckets.Length)
    }

    constructor (priorities: nat)
      ensures Valid() && waiting == [] && buckets.Length == priorities && fresh(buckets)
    {
      buckets := new seq<Job>[priorities](_ => []);
      waiting := [];
    }

    /** No bucket in the range holds a job, so no job waits there. */
    lemma EmptyBuckets(lo: nat, hi: nat)
      requires Valid() && lo <= hi <= buckets.Length && forall p :: lo <= p < hi ==> buckets[p] == []
      ensures forall x :: x in waiting ==> !(lo <= x.priority < hi)
    {
      forall x | x in waiting ensures !(lo <= x.priority < hi) {
        OfMembers(waiting, x.priority);
        assert x in Of(waiting, x.priority);
      }
    }

    lemma NoneWaiting()
      requires Valid() && forall p :: 0 <= p < buckets.Length ==> buckets[p] == []
      ensures waiting == []
    {
      EmptyBuckets(0, buckets.Length);
      HasMember(waiting);
    }

    method Len() returns (n: nat)
      requires Valid()
      ensures n == |waiting|
    {
      n := 0;
      BelowNext(waiting, 0);
      for p := 0 to buckets.Length
        invariant n == Below(waiting, p)
      {
        BelowNext(waiting, p);
        n := n + |buckets[p]|;
      }
      BelowAll(waiting, buckets.Length);
    }

    method IsEmpty() returns (empty: bool)
      requires Valid()
      ensures empty <==> waiting == []
    {
      for p := 0 to buckets.Length
        invariant forall q :: 0 <= q < p ==> buckets[q] == []
      {
        if buckets[p] != [] {
          OfMembers(waiting, p);
          assert buckets[p][0] in waiting;
          return false;
        }
      }
      NoneWaiting();
      return true;
    }

    /** Pop the bucket at `p`, whose front is the job at `k`. */
    method TakeFrom(p: nat, ghost k: nat) returns (job: Job)
      requires Valid() && p < buckets.Length && k < |waiting| && waiting[k].priority == p
      requires forall j :: 0 <= j < k ==> waiting[j].priority != p
      modifies this, buckets
      ensures Valid() && job == old(waiting)[k] && waiting == RemoveAt(old(waiting), k)
    {
      OldestIsFront(waiting, k);
      job := buckets[p][0];
      buckets[p] := buckets[p][1..];
      waiting := RemoveAt(waiting, k);
      assert forall x :: x in waiting ==> x in old(waiting);
    }

    method PopFront() returns (job: Option<Job>)
      requires Valid()
      modifies this, buckets
      ensures Valid()
      ensures old(waiting) == [] ==> job == None && waiting == []
      ensures old(waiting) != [] ==>
                var k := NextIndex(old(waiting));
                job == Some(old(waiting)[k]) && waiting == RemoveAt(old(waiting), k)
    {
      for p := 0 to buckets.Length
        invariant Valid() && waiting == old(waiting) && forall q :: 0 <= q < p ==> buckets[q] == []
      {
        if buckets[p] != [] {
          ghost var k := NextOf(p);
          var r := TakeFrom(p, k);
          return Some(r);
        }
      }
      NoneWaiting();
      return None;
    }

    /** With nothing more urgent waiting, the next job is the oldest of this bucket. */
    lemma NextOf(p: nat) returns (k: nat)
      requires Valid() && p < buckets.Length && buckets[p] != [] && forall q :: 0 <= q < p ==> buckets[q] == []
      ensures waiting != [] && k == NextIndex(waiting) && waiting[k].priority == p
      ensures forall j :: 0 <= j < k ==> waiting[j].priority != p
    {
      OfMembers(waiting, p);
      var x := buckets[p][0];
      assert x in waiting;
      EmptyBuckets(0, p);
      k := NextIndex(waiting);
      assert waiting[k] in waiting;
    }

    lemma LeastOf(p: nat) returns (k: nat)
      requires Valid() && p < buckets.Length && buckets[p] != [] && forall q :: p < q < buckets.Length ==> buckets[q] == []
      ensures waiting != [] && k == LeastIndex(waiting) && waiting[k].priority == p
      ensures forall j :: 0 <= j < k ==> waiting[j].priority != p
    {
      OfMembers(waiting, p);
      var x := buckets[p][0];
      assert x in waiting;
      EmptyBuckets(p + 1, buckets.Length);
      k := LeastIndex(waiting);
      assert waiting[k] in waiting;
    }

    method DiscardOldest() returns (job: Option<Job>)
      requires Valid()
      modifies this, buckets
      ensures Valid()
      ensures old(waiting) == [] ==> job == None && waiting == []
      ensures old(waiting) != [] ==>
                var k := LeastIndex(old(waiting));
                job == Some(old(waiting)[k]) && waiting == RemoveAt(old(waiting), k)
    {
      var p := buckets.Length;
      while p > 0
        invariant 0 <= p <= buckets.Length
        invariant Valid() && waiting == old(waiting) && forall q :: p <= q < buckets.Length ==> buckets[q] == []
      {
        p := p - 1;
        if buckets[p] != [] {
          ghost var k := LeastOf(p);
          var r := TakeFrom(p, k);
          return Some(r);
        }
      }
      NoneWaiting();
      return None;
    }

    method Peek() returns (job: Option<Job>)
      requires Valid()
      ensures job == if waiting == [] then None else Some(waiting[NextIndex(waiting)])
    {
      for p := 0 to buckets.Length
        invariant forall q :: 0 <= q < p ==> buckets[q] == []
      {
        if buckets[p] != [] {
          ghost var k := NextOf(p);
          OldestIsFront(waiting, k);
          return Some(buckets[p][0]);
        }
      }
      NoneWaiting();
      return None;
    }

    method PushBack(job: Job)
      requires Valid() && job.priority < buckets.Length
      modifies this, buckets
      ensures Valid() && waiting == old(waiting) + [job]
    {
      forall p ensures Of(waiting + [job], p) == if job.priority == p then Of(waiting, p) + [job] else Of(waiting, p) {
        OfSnoc(waiting, job, p);
      }
      buckets[job.priority] := buckets[job.priority] + [job];
      waiting := waiting + [job];
    }

    /** The expired jobs go to the discard handler one by one: bucket by bucket, so by
        priority and then by arrival. */
    method RemoveExpired(expired: set<nat>) returns (discarded: seq<Job>, removed: nat)
      requires Valid()
      modifies this, buckets
      ensures Valid() && waiting == Fresh(old(waiting), expired)
      ensures discarded == PopAll(Stale(old(waiting), expired)) && removed == |Stale(old(waiting), expired)|
    {
      hide Of, Fresh, Stale, PopAll;
      ghost var before := waiting;
      discarded, removed := [], 0;
      for i := 0 to buckets.Length
        invariant forall p :: i <= p < buckets.Length ==> buckets[p] == Of(before, p)
        invariant forall p :: 0 <= p < i ==> buckets[p] == Fresh(Of(before, p), expired)
        invariant discarded == InBuckets(Stale(before, expired), i) && removed == |discarded|
      {
        var kept, gone := Retain(buckets[i], expired);
        StaleOf(before, expired, i);
        buckets[i] := kept;
        discarded, removed := discarded + gone, removed + |gone|;
      }
      Expired(before, expired, buckets.Length);
      waiting := Fresh(before, expired);
    }
  }

  /** What the buckets hold once the expired jobs are gone. */
  lemma Expired(s: seq<Job>, expired: set<nat>, n: nat)
    requires forall x :: x in s ==> x.priority < n
    ensures forall p :: Fresh(Of(s, p), expired) == Of(Fresh(s, expired), p)
    ensures forall x :: x in Fresh(s, expired) ==> x.priority < n
    ensures InBuckets(Stale(s, expired), n) == PopAll(Stale(s, expired))
    ensures |PopAll(Stale(s, expired))| == |Stale(s, expired)|
  {
    hide Of, Fresh, Stale, PopAll;
    forall p ensures Fresh(Of(s, p), expired) == Of(Fresh(s, expired), p) { FreshOf(s, expired, p); }
    FreshMembers(s, expired);
    StaleMembers(s, expired);
    BucketsAreSorted(Stale(s, expired), n);
    PopAllLength(Stale(s, expired));
  }

  /** The buckets of the first `n` priorities, one after the other. */
  function InBuckets(s: seq<Job>, n: nat): seq<Job>
  {
    if n == 0 then [] else InBuckets(s, n - 1) + Of(s, n - 1)
  }

  lemma {:induction false} InBucketsUrgent(s: seq<Job>, n: nat)
    ensures Urgent(InBuckets(s, n))
    ensures forall x :: x in InBuckets(s, n) ==> x.priority < n
  {
    hide Of, Urgent;
    if n == 0 {
      NoneUrgent();
    } else {
      InBucketsUrgent(s, n - 1);
      OfMembers(s, n - 1);
      UrgentThen(InBuckets(s, n - 1), Of(s, n - 1), n - 1);
    }
  }

  lemma NoneUrgent()
    ensures Urgent([])
  {
  }

  lemma UrgentThen(a: seq<Job>, b: seq<Job>, n: nat)
    requires Urgent(a) && forall x :: x in a ==> x.priority < n
    requires forall x :: x in b ==> x.priority == n
    ensures Urgent(a + b)
  {
    forall i, j | 0 <= i < j < |a + b| ensures (a + b)[i].priority <= (a + b)[j].priority {
      if j >= |a| {
        assert (a + b)[j] in b;
        if i < |a| { assert (a + b)[i] in a; } else { assert (a + b)[i] in b; }
      }
    }
  }

  lemma {:induction false} InBucketsOf(s: seq<Job>, n: nat, p: nat)
    ensures Of(InBuckets(s, n), p) == if p < n then Of(s, p) else []
  {
    if n == 0 {
      OfNone([], p);
    } else {
      InBucketsOf(s, n - 1, p);
      OfSplits(InBuckets(s, n - 1), Of(s, n - 1), p);
      OfTwice(s, n - 1, p);
      assert [] + Of(s, p) == Of(s, p) && Of(s, p) + [] == Of(s, p);
    }
  }

  lemma {:induction false} OfTwice(s: seq<Job>, q: nat, p: nat)
    ensures Of(Of(s, q), p) == if p == q then Of(s, p) else []
  {
    if s != [] {
      var init, last := s[..|s| - 1], s[|s| - 1];
      assert s == init + [last];
      OfTwice(init, q, p);
      OfSnoc(init, last, q);
      OfSnoc(init, last, p);
      if last.priority == q { OfSnoc(Of(init, q), last, p); }
    }
  }

  lemma BucketsAreSorted(s: seq<Job>, n: nat)
    requires forall x :: x in s ==> x.priority < n
    ensures InBuckets(s, n) == PopAll(s)
  {
    hide Of, PopAll, InBuckets;
    InBucketsUrgent(s, n);
    PopAllIsStableSort(s);
    forall p: nat ensures Of(InBuckets(s, n), p) == Of(PopAll(s), p) {
      InBucketsOf(s, n, p);
      assert Of(PopAll(s), p) == Of(s, p);
      if p >= n { OfNone(s, p); }
    }
    StableSortIsUnique(InBuckets(s, n), PopAll(s));
  }

  lemma {:induction false} PopAllLength(s: seq<Job>)
    ensures |PopAll(s)| == |s|
    decreases |s|
  {
    if s != [] { PopAllLength(RemoveAt(s, NextIndex(s))); }
  }

  lemma HasMember(s: seq<Job>)
    ensures s != [] ==> exists x :: x in s
  {
    if s != [] { assert s[0] in s; }
  }

  /** Keep, in order, what has not expired; discard, in order, what has. */
  method Retain(s: seq<Job>, expired: set<nat>) returns (kept: seq<Job>, gone: seq<Job>)
    ensures kept == Fresh(s, expired) && gone == Stale(s, expired)
  {
    kept, gone := [], [];
    for i := 0 to |s|
      invariant kept == Fresh(s[..i], expired) && gone == Stale(s[..i], expired)
    {
      assert s[..i + 1][..i] == s[..i];
      if s[i].id in expired {
        gone := gone + [s[i]];
      } else {
        kept := kept + [s[i]];
      }
    }
    assert s[..|s|] == s;
  }

  /** How many jobs are of the first `p` priorities. */
  function Below(s: seq<Job>, p: nat): nat
  {
    if s == [] then 0 else Below(s[..|s| - 1], p) + if s[|s| - 1].priority < p then 1 else 0
  }

  lemma {:induction false} BelowNext(s: seq<Job>, p: nat)
    ensures Below(s, 0) == 0
    ensures Below(s, p + 1) == Below(s, p) + |Of(s, p)|
  {
    if s != [] { BelowNext(s[..|s| - 1], p); }
  }

  lemma {:induction false} BelowAll(s: seq<Job>, p: nat)
    requires forall x :: x in s ==> x.priority < p
    ensures Below(s, p) == |s|
  {
    if s != [] { BelowAll(s[..|s| - 1], p); }
  }

  lemma {:induction false} StaleOf(s: seq<Job>, expired: set<nat>, p: nat)
    ensures Of(Stale(s, expired), p) == Stale(Of(s, p), expired)
  {
    if s != [] {
      var init, last := s[..|s| - 1], [s[|s| - 1]];
      StaleOf(init, expired, p);
      StaleSnoc(init, last[0], expired);
      OfSnoc(init, last[0], p);
      assert s == init + last;
      if last[0].id in expired { OfSnoc(Stale(init, expired), last[0], p); }
      if last[0].priority == p { StaleSnoc(Of(init, p), last[0], expired); }
    }
  }

  lemma StaleSnoc(s: seq<Job>, x: Job, expired: set<nat>)
    ensures Stale(s + [x], expired) == if x.id in expired then Stale(s, expired) + [x] else Stale(s, expired)
  {
    assert (s + [x])[..|s|] == s;
  }

  lemma OfSnoc(s: seq<Job>, x: Job, p: nat)
    ensures Of(s + [x], p) == if x.priority == p then Of(s, p) + [x] else Of(s, p)
  {
    assert (s + [x])[..|s|] == s;
  }

  lemma {:induction false} StaleMembers(s: seq<Job>, expired: set<nat>)
    ensures forall x :: x in Stale(s, expired) ==> x in s
  {
    if s != [] { StaleMembers(s[..|s| - 1], expired); }
  }

  lemma {:induction false} FreshMembers(s: seq<Job>, expired: set<nat>)
    ensures forall x :: x in Fresh(s, expired) ==> x in s
  {
    if s != [] { FreshMembers(s[..|s| - 1], expired); }
  }
}
