/**
 Which calls are answered: over whole runs, a reply to a call that was sent, is still unanswered
 and whose caller has not given up is delivered, and nothing else is.
 */
module RemoteCallsAnswers {
  import opened Options
  import opened RemoteCalls

  const START := State(0, [], None)

  /** Step `i` sends the call that `x` stands for. */
  predicate Sends(steps: seq<Step>, i: nat, x: Entry)
  {
    i < |steps| && steps[i].message == Call(x.port, true) && x.tag == |Calls(steps[..i])| + 1
  }

  /** Step `i` sends the call, and up to step `j` no reply to it comes in. */
  predicate Unanswered(steps: seq<Step>, i: nat, j: nat, x: Entry)
  {
    Sends(steps, i, x) && i < j <= |steps| && forall k :: i < k < j ==> steps[k].message != CallReply(x.tag)
  }

  /** Step `j` is the first reply to the call sent by step `i`. */
  predicate FirstReply(steps: seq<Step>, i: nat, j: nat, x: Entry)
  {
    Unanswered(steps, i, j, x) && j < |steps| && steps[j].message == CallReply(x.tag)
  }

  // ------------------------------------------------------------------ what is awaited is delivered

  lemma StillPending(s: State, step: Step, e: Entry)
    requires Valid(s) && e in s.pending && e.port !in step.closed && step.message != CallReply(e.tag)
    ensures e in Handle(s, step.closed, step.message).pending
  {
    SweepMeaning(s, step.closed, e);
    SweepTakes(s, step.closed);
    hide Sweep;
  }

  lemma AnsweredNow(s: State, step: Step, e: Entry)
    requires Valid(s) && e in s.pending && e.port !in step.closed && step.message == CallReply(e.tag)
    ensures Answered(s, step) == [e]
  {
    hide Sweep, Valid;
    SweepMeaning(s, step.closed, e);
    TagIsEntry(Sweep(s, step.closed), e);
    LookupFinds(Sweep(s, step.closed).pending, e);
  }

  lemma {:induction false} PendingIsAnswered(s: State, steps: seq<Step>, e: Entry, j: nat)
    requires Valid(s) && e in s.pending && j < |steps| && steps[j].message == CallReply(e.tag)
    requires forall k :: 0 <= k <= j ==> e.port !in steps[k].closed
    requires forall k :: 0 <= k < j ==> steps[k].message != CallReply(e.tag)
    ensures e in Answers(s, steps)
    decreases |steps|
  {
    hide Valid, Handle, Answered;
    var step := steps[0];
    if j == 0 {
      AnsweredNow(s, step, e);
    } else {
      HandleValid(s, step.closed, step.message, e);
      StillPending(s, step, e);
      PendingIsAnswered(Handle(s, step.closed, step.message), steps[1..], e, j - 1);
    }
  }

  lemma HandleCounts(s: State, step: Step)
    ensures Handle(s, step.closed, step.message).tag == s.tag + |Added(step.message)|
  {
  }

  lemma CallIsRecorded(s: State, step: Step)
    requires step.message.Call? && step.message.sent
    ensures Entry(s.tag + 1, step.message.port) in Handle(s, step.closed, step.message).pending
  {
  }

  lemma {:induction false} SentIsAnswered(s: State, steps: seq<Step>, i: nat, j: nat, x: Entry)
    requires Valid(s) && i < j < |steps| && steps[i].message == Call(x.port, true) && steps[j].message == CallReply(x.tag)
    requires x.tag == s.tag + |Calls(steps[..i])| + 1
    requires forall k :: i < k < j ==> steps[k].message != CallReply(x.tag)
    requires forall k :: i < k <= j ==> x.port !in steps[k].closed
    ensures x in Answers(s, steps)
    decreases |steps|
  {
    hide Valid, Handle, Answered;
    var step, rest := steps[0], steps[1..];
    HandleValid(s, step.closed, step.message, x);
    HandleCounts(s, step);
    if i == 0 {
      CallIsRecorded(s, step);
      assert steps[..0] == [];
      PendingIsAnswered(Handle(s, step.closed, step.message), rest, x, j - 1);
    } else {
      assert steps[..i][0] == step && steps[..i][1..] == rest[..i - 1];
      SentIsAnswered(Handle(s, step.closed, step.message), rest, i - 1, j - 1, x);
    }
  }

  /** In every run, the first reply to a call that was sent is delivered to the port of that
      call, if the caller has not given up by then. */
  lemma ReplyIsDelivered(steps: seq<Step>, i: nat, j: nat, x: Entry)
    requires FirstReply(steps, i, j, x) && forall k :: i < k <= j ==> x.port !in steps[k].closed
    ensures x in Answers(START, steps) && x.tag <= |Calls(steps)| && Calls(steps)[x.tag - 1] == x.port
  {
    SentIsAnswered(START, steps, i, j, x);
    RepliesReachTheirCallers(steps);
  }

  // ------------------------------------------------------------------ nothing else is

  lemma {:induction false} CallsAppend(a: seq<Step>, b: seq<Step>)
    ensures Calls(a + b) == Calls(a) + Calls(b)
  {
    if a == [] {
      assert a + b == b;
    } else {
      assert (a + b)[1..] == a[1..] + b;
      CallsAppend(a[1..], b);
    }
  }

  lemma CallsOne(step: Step)
    ensures Calls([step]) == Added(step.message)
  {
    assert [step][1..] == [];
  }

  /** Every pending request was sent and has had no reply. */
  ghost predicate AllAwaited(s: State, done: seq<Step>)
  {
    && Valid(s) && s.tag == |Calls(done)|
    && forall e :: e in s.pending ==> exists i: nat :: Unanswered(done, i, |done|, e)
  }

  lemma AwaitedLater(done: seq<Step>, step: Step, i: nat, e: Entry)
    requires Unanswered(done, i, |done|, e)
    ensures step.message != CallReply(e.tag) ==> Unanswered(done + [step], i, |done| + 1, e)
    ensures step.message == CallReply(e.tag) ==> FirstReply(done + [step], i, |done|, e)
  {
    assert (done + [step])[..i] == done[..i];
  }

  lemma HandlePending(s: State, step: Step, e: Entry)
    requires Valid(s) && e in Handle(s, step.closed, step.message).pending
    ensures (e in s.pending && step.message != CallReply(e.tag))
         || (step.message == Call(e.port, true) && e.tag == s.tag + 1)
  {
    SweepTakes(s, step.closed);
    hide Sweep;
  }

  lemma StepAwaited(s: State, done: seq<Step>, step: Step)
    requires AllAwaited(s, done)
    ensures AllAwaited(Handle(s, step.closed, step.message), done + [step])
  {
    var s', done' := Handle(s, step.closed, step.message), done + [step];
    HandleCounts(s, step);
    HandleValid(s, step.closed, step.message, Entry(0, 0));
    CallsAppend(done, [step]);
    CallsOne(step);
    forall e | e in s'.pending ensures exists i: nat :: Unanswered(done', i, |done'|, e) {
      HandlePending(s, step, e);
      hide Handle, Valid;
      if e in s.pending {
        var i: nat :| Unanswered(done, i, |done|, e);
        AwaitedLater(done, step, i, e);
      } else {
        assert done'[..|done|] == done;
        assert Unanswered(done', |done|, |done'|, e);
      }
    }
  }

  lemma FirstReplyLater(a: seq<Step>, b: seq<Step>, i: nat, j: nat, x: Entry)
    requires FirstReply(a, i, j, x)
    ensures FirstReply(a + b, i, j, x)
  {
    assert (a + b)[..i] == a[..i];
  }

  ghost predicate Replied(steps: seq<Step>, x: Entry) { exists i: nat, j: nat :: FirstReply(steps, i, j, x) }

  lemma AnswerWasAwaited(s: State, done: seq<Step>, step: Step, x: Entry)
    requires AllAwaited(s, done) && x in Answered(s, step)
    ensures Replied(done + [step], x)
  {
    hide Sweep;
    SweepTakes(s, step.closed);
    var i: nat :| Unanswered(done, i, |done|, x);
    AwaitedLater(done, step, i, x);
  }

  lemma {:induction false} AnswersWereAwaited(s: State, done: seq<Step>, steps: seq<Step>, x: Entry)
    requires AllAwaited(s, done) && x in Answers(s, steps)
    ensures Replied(done + steps, x)
    decreases |steps|
  {
    hide Handle, Answered, AllAwaited;
    var step, rest := steps[0], steps[1..];
    assert done + steps == (done + [step]) + rest;
    if x in Answered(s, step) {
      AnswerWasAwaited(s, done, step, x);
      var i: nat, j: nat :| FirstReply(done + [step], i, j, x);
      FirstReplyLater(done + [step], rest, i, j, x);
    } else {
      StepAwaited(s, done, step);
      AnswersWereAwaited(Handle(s, step.closed, step.message), done + [step], rest, x);
    }
  }

  /** In every run, only the first reply to a call that was sent is delivered. */
  lemma OnlyFirstRepliesAreDelivered(steps: seq<Step>, x: Entry)
    requires x in Answers(START, steps)
    ensures Replied(steps, x)
  {
    AnswersWereAwaited(START, [], steps, x);
    assert [] + steps == steps;
  }
}
