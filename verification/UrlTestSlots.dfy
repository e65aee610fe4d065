/** Delay tests under the slot semaphore, each racing its goroutine against a
    watchdog, as interleaved steps. */
module UrlTestSlots {

  import opened Options

  datatype Result = Result(delay: nat, failed: bool)

  datatype Caller = Queued | Selecting | Returned(answer: int)

  /** The goroutine of a test: not started, in URLTest, about to send, about to release, gone. */
  datatype Worker = Unborn | Testing | Sending(r: Result) | Releasing | Gone

  /** reply is what URLTest returned, buffer the result channel of capacity one;
      releases counts the slot's releases. */
  datatype Test = Test(
    caller: Caller, worker: Worker, reply: Option<Result>, buffer: Option<Result>, expired: bool, releases: nat)

  /** taken is what the semaphore has given out. */
  datatype State = State(tests: seq<Test>, taken: nat)

  function Init(n: nat): State {
    State(seq(n, _ => Test(Queued, Unborn, None, None, false, 0)), 0)
  }

  // ----- Steps

  datatype Action =
    | Acquire(i: nat)               // a slot is free in time; the goroutine starts
    | GiveUp(i: nat)                // no slot within the wait
    | Finish(i: nat, r: Result)     // URLTest returns
    | Send(i: nat)
    | Release(i: nat)
    | Expire(i: nat)                // the test's deadline passes
    | Receive(i: nat)               // the caller takes the result
    | Watch(i: nat)                 // the caller takes the deadline

  predicate Enabled(capacity: nat, s: State, a: Action) {
    && a.i < |s.tests|
    && var test := s.tests[a.i];
       match a
       case Acquire(_) => test.caller.Queued? && s.taken + 1 <= capacity
       case GiveUp(_) => test.caller.Queued?
       case Finish(_, _) => test.worker.Testing?
       case Send(_) => test.worker.Sending? && test.buffer.None?
       case Release(_) => test.worker.Releasing? && s.taken > 0
       case Expire(_) => test.caller.Selecting? || test.worker.Testing?
       case Receive(_) => test.caller.Selecting? && test.buffer.Some?
       case Watch(_) => test.caller.Selecting? && test.expired
  }

  /** What the caller makes of a result that it takes. */
  function Answer(r: Result, expired: bool): int {
    if r.failed || expired || r.delay == 0 then -1 else r.delay
  }

  function NextTest(test: Test, a: Action): Test
    requires (a.Send? ==> test.worker.Sending?) && (a.Receive? ==> test.buffer.Some?)
  {
    match a
    case Acquire(_) => test.(caller := Selecting, worker := Testing)
    case GiveUp(_) => test.(caller := Returned(-1))
    case Finish(_, r) => test.(worker := Sending(r), reply := Some(r))
    case Send(_) => test.(worker := Releasing, buffer := Some(test.worker.r))
    case Release(_) => test.(worker := Gone, releases := test.releases + 1)
    case Expire(_) => test.(expired := true)
    case Receive(_) => test.(caller := Returned(Answer(test.buffer.value, test.expired)), buffer := None)
    case Watch(_) => test.(caller := Returned(-1))
  }

  function Do(capacity: nat, s: State, a: Action): State
    requires Enabled(capacity, s, a)
  {
    State(s.tests[a.i := NextTest(s.tests[a.i], a)],
          if a.Acquire? then s.taken + 1 else if a.Release? then s.taken - 1 else s.taken)
  }

  ghost predicate Follows(capacity: nat, s: State, u: State) {
    exists a :: Enabled(capacity, s, a) && u == Do(capacity, s, a)
  }

  ghost predicate IsRun(capacity: nat, n: nat, run: seq<State>) {
    && |run| > 0 && run[0] == Init(n)
    && forall j :: 0 <= j < |run| - 1 ==> Follows(capacity, run[j], run[j + 1])
  }

  // ----- The invariant

  predicate HoldsSlot(test: Test) {
    test.worker.Testing? || test.worker.Sending? || test.worker.Releasing?
  }

  /** URL tests in flight. */
  ghost function InFlight(tests: seq<Test>): nat {
    if tests == [] then 0 else (if HoldsSlot(tests[0]) then 1 else 0) + InFlight(tests[1..])
  }

  ghost predicate TestOk(test: Test) {
    && (test.caller.Queued? ==> test.worker.Unborn?)
    && (test.worker.Unborn? ==> test.caller.Queued? || test.caller == Returned(-1))
    && (test.worker.Unborn? || test.worker.Testing? || test.worker.Sending? ==> test.buffer.None?)
    && test.releases == (if test.worker.Gone? then 1 else 0)
    && (test.worker.Sending? ==> test.reply == Some(test.worker.r))
    && (test.buffer.Some? ==> test.buffer == test.reply)
    && (test.caller.Returned? ==> test.caller.answer == -1 || Answers(test.reply, test.caller.answer))
    && (test.reply.Some? ==> !test.worker.Unborn? && !test.worker.Testing?)
    && (test.caller.Returned? && test.worker.Unborn? ==> test.caller.answer == -1)
    && (test.caller.Returned? && !test.worker.Unborn? && !test.expired ==> Repeats(test.reply, test.caller.answer))
    && (test.caller.Selecting? && (test.worker.Releasing? || test.worker.Gone?) ==> test.buffer.Some?)
  }

  /** The answer is the delay of a reply that did not fail. */
  ghost predicate Answers(reply: Option<Result>, answer: int) {
    reply.Some? && !reply.value.failed && answer == reply.value.delay > 0
  }

  /** There is a reply, and the answer is its delay if it is good, and else -1. */
  ghost predicate Repeats(reply: Option<Result>, answer: int) {
    && reply.Some?
    && (!reply.value.failed && reply.value.delay > 0 ==> answer == reply.value.delay)
    && (reply.value.failed || reply.value.delay == 0 ==> answer == -1)
  }

  ghost predicate Invariant(capacity: nat, s: State) {
    && s.taken == InFlight(s.tests) <= capacity
    && forall i :: 0 <= i < |s.tests| ==> TestOk(s.tests[i])
  }

  lemma {:induction false} InFlightChange(tests: seq<Test>, i: nat, test: Test)
    requires i < |tests|
    ensures InFlight(tests[i := test]) + (if HoldsSlot(tests[i]) then 1 else 0)
         == InFlight(tests) + if HoldsSlot(test) then 1 else 0
  {
    if i == 0 {
      assert tests[i := test][1..] == tests[1..];
    } else {
      InFlightChange(tests[1..], i - 1, test);
      assert tests[i := test][1..] == tests[1..][i - 1 := test];
    }
  }

  lemma {:induction false} NoneInFlight(tests: seq<Test>)
    ensures InFlight(tests) == 0 <==> forall i :: 0 <= i < |tests| ==> !HoldsSlot(tests[i])
  {
    if tests != [] {
      NoneInFlight(tests[1..]);
      if InFlight(tests) == 0 {
        forall i | 0 <= i < |tests| ensures !HoldsSlot(tests[i]) {
          assert i > 0 ==> tests[i] == tests[1..][i - 1];
        }
      } else if !HoldsSlot(tests[0]) {
        var i :| 0 <= i < |tests[1..]| && HoldsSlot(tests[1..][i]);
        assert tests[i + 1] == tests[1..][i];
      }
    }
  }

  lemma StepTest(test: Test, a: Action, capacity: nat, s: State)
    requires Enabled(capacity, s, a) && test == s.tests[a.i] && TestOk(test)
    ensures TestOk(NextTest(test, a))
    ensures HoldsSlot(NextTest(test, a)) <==> (HoldsSlot(test) || a.Acquire?) && !a.Release?
    ensures a.Acquire? ==> !HoldsSlot(test)
    ensures a.Release? ==> HoldsSlot(test)
  {
  }

  lemma StepInvariant(capacity: nat, s: State, a: Action)
    requires Invariant(capacity, s) && Enabled(capacity, s, a)
    ensures Invariant(capacity, Do(capacity, s, a))
  {
    StepTest(s.tests[a.i], a, capacity, s);
    InFlightChange(s.tests, a.i, NextTest(s.tests[a.i], a));
  }

  lemma {:induction false} RunInvariant(capacity: nat, n: nat, run: seq<State>)
    requires IsRun(capacity, n, run)
    ensures Invariant(capacity, run[|run| - 1]) && |run[|run| - 1].tests| == n
  {
    if |run| == 1 {
      NoneInFlight(Init(n).tests);
    } else {
      RunInvariant(capacity, n, run[..|run| - 1]);
      var s := run[|run| - 2];
      assert Follows(capacity, s, run[|run| - 1]);
      var a :| Enabled(capacity, s, a) && run[|run| - 1] == Do(capacity, s, a);
      StepInvariant(capacity, s, a);
    }
  }

  // ----- What holds over whole runs

  /** The tests in flight never exceed the slots, and the semaphore counts them exactly. */
  lemma WithinSlots(capacity: nat, n: nat, run: seq<State>)
    requires IsRun(capacity, n, run)
    ensures InFlight(run[|run| - 1].tests) == run[|run| - 1].taken <= capacity
  {
    RunInvariant(capacity, n, run);
  }

  /** Whether or not the watchdog has returned already, the goroutine's send finds the
      channel empty, its release follows, and nothing is released twice. */
  lemma SlotReleasedOnce(capacity: nat, n: nat, run: seq<State>, i: nat)
    requires IsRun(capacity, n, run) && i < n
    ensures var s := run[|run| - 1];
            && i < |s.tests| && s.tests[i].releases <= 1
            && (s.tests[i].releases == 1 <==> s.tests[i].worker.Gone?)
            && (s.tests[i].worker.Sending? ==> Enabled(capacity, s, Send(i)))
            && (s.tests[i].worker.Releasing? ==> Enabled(capacity, s, Release(i)))
  {
    RunInvariant(capacity, n, run);
    var s := run[|run| - 1];
    assert TestOk(s.tests[i]);
    if s.tests[i].worker.Releasing? {
      assert HoldsSlot(s.tests[i]);
      NoneInFlight(s.tests);
    }
  }

  /** Once no goroutine is left in flight every slot is back. */
  lemma SlotsComeBack(capacity: nat, n: nat, run: seq<State>, s: State)
    requires IsRun(capacity, n, run) && s == run[|run| - 1]
    requires forall i :: 0 <= i < |s.tests| ==> s.tests[i].worker.Unborn? || s.tests[i].worker.Gone?
    ensures s.taken == 0
  {
    RunInvariant(capacity, n, run);
    NoneInFlight(s.tests);
  }

  /** A caller answers the delay of its own URLTest's good reply, or -1: -1 without a
      slot, and before its deadline -1 only for a reply that is not good. It never has to
      wait once the reply is sent or the deadline is past. */
  lemma AnswerIsDelay(capacity: nat, n: nat, run: seq<State>, i: nat)
    requires IsRun(capacity, n, run) && i < n
    ensures i < |run[|run| - 1].tests|
    ensures var test := run[|run| - 1].tests[i];
            && (test.caller.Returned? ==> test.caller.answer == -1 || Answers(test.reply, test.caller.answer))
            && (test.caller.Returned? && test.worker.Unborn? ==> test.caller.answer == -1)
            && (test.caller.Returned? && !test.worker.Unborn? && !test.expired ==>
                  Repeats(test.reply, test.caller.answer))
            && (test.caller.Selecting? && (test.worker.Releasing? || test.worker.Gone?) ==>
                  Enabled(capacity, run[|run| - 1], Receive(i)))
            && (test.caller.Selecting? && test.expired ==> Enabled(capacity, run[|run| - 1], Watch(i)))
  {
    RunInvariant(capacity, n, run);
    assert TestOk(run[|run| - 1].tests[i]);
  }

  /** The reply is what URLTest returned. */
  lemma {:induction false} ReplyIsWhatCameBack(capacity: nat, n: nat, run: seq<State>, j: nat, i: nat, r: Result)
    requires IsRun(capacity, n, run) && j + 1 < |run|
    requires Enabled(capacity, run[j], Finish(i, r)) && run[j + 1] == Do(capacity, run[j], Finish(i, r))
    ensures i < |run[|run| - 1].tests| && run[|run| - 1].tests[i].reply == Some(r)
    decreases |run|
  {
    if j + 1 < |run| - 1 {
      var front := run[..|run| - 1];
      ReplyIsWhatCameBack(capacity, n, front, j, i, r);
      RunInvariant(capacity, n, front);
      assert TestOk(front[|front| - 1].tests[i]);
      assert Follows(capacity, run[|run| - 2], run[|run| - 1]);
      var a :| Enabled(capacity, run[|run| - 2], a) && run[|run| - 1] == Do(capacity, run[|run| - 2], a);
    }
  }

  /** A caller in the queue is let in whenever fewer tests are in flight than there are slots. */
  lemma FreeSlotIsGiven(capacity: nat, n: nat, run: seq<State>, i: nat)
    requires IsRun(capacity, n, run) && InFlight(run[|run| - 1].tests) < capacity
    requires i < |run[|run| - 1].tests| && run[|run| - 1].tests[i].caller.Queued?
    ensures Enabled(capacity, run[|run| - 1], Acquire(i))
    ensures HoldsSlot(Do(capacity, run[|run| - 1], Acquire(i)).tests[i])
  {
    RunInvariant(capacity, n, run);
  }

  ghost predicate PastDeadline(s: State, i: nat) {
    && i < |s.tests| && s.tests[i].expired && !s.tests[i].worker.Unborn?
    && (s.tests[i].caller.Selecting? || s.tests[i].caller == Returned(-1))
  }

  /** A caller that is still waiting when the deadline passes answers -1, whatever comes back. */
  lemma {:induction false} PastDeadlineAnswersNothing(capacity: nat, n: nat, run: seq<State>, j: nat, i: nat)
    requires IsRun(capacity, n, run) && j < |run| && i < |run[j].tests|
    requires run[j].tests[i].caller.Selecting? && run[j].tests[i].expired
    ensures PastDeadline(run[|run| - 1], i)
    decreases |run|
  {
    RunInvariant(capacity, n, run[..j + 1]);
    assert TestOk(run[j].tests[i]);
    if j < |run| - 1 {
      var front := run[..|run| - 1];
      PastDeadlineAnswersNothing(capacity, n, front, j, i);
      assert Follows(capacity, run[|run| - 2], run[|run| - 1]);
      var a :| Enabled(capacity, run[|run| - 2], a) && run[|run| - 1] == Do(capacity, run[|run| - 2], a);
    }
  }
}
