/** What starts, stops and hot paths of TUN handlers get done, beside what they never do. */
module TunEffects {

  import opened Options
  import opened TunFence

  /** Closed for good: no listener, no callback. */
  predicate Torn(handler: Handler) {
    handler.closed && !handler.listener && !handler.callback
  }

  predicate Open(handler: Handler) {
    !handler.closed && handler.listener && handler.callback
  }

  /** The current handler, if there is one, is open with the hooks in, or torn down without them. */
  ghost predicate Settled(s: State) {
    s.current.Some? && s.current.value in s.handlers ==>
      || (Open(s.handlers[s.current.value]) && s.hooks)
      || (Torn(s.handlers[s.current.value]) && !s.hooks)
  }

  ghost predicate AllTorn(s: State) {
    !s.hooks && forall h :: h in s.handlers ==> Torn(s.handlers[h])
  }

  ghost predicate OthersTorn(s: State) {
    forall h :: h in s.handlers && s.current != Some(h) ==> Torn(s.handlers[h])
  }

  /** What the holder of tunLock has got done. */
  ghost predicate Achieved(program: Program, s: State, t: Tid, pc: Pc) {
    match pc
    case Clearing(h, at, _) =>
      && s.current == Some(h) && h in s.handlers
      && (match at
          case ReleaseCallback => !s.handlers[h].listener
          case ReleaseAll => !s.handlers[h].listener && !s.handlers[h].callback
          case _ => true)
    case Stopped => AllTorn(s)
    case Opened => s.current == Some(t) && t in s.handlers && Open(s.handlers[t]) && s.hooks
    case Unlocking => s.current == Some(t) && t in s.handlers && Settled(s)
    case Leaving => if program == Start(true) then s.current == Some(t) && t in s.handlers && Settled(s) else AllTorn(s)
    case Stopping => Settled(s)
    case _ => true
  }

  ghost predicate Effects(programs: seq<Program>, s: State) {
    && OthersTorn(s)
    && (s.tunLock.None? ==> Settled(s))
    && (s.tunLock.Some? && s.tunLock.value < |s.threads| && s.tunLock.value < |programs| ==>
          Achieved(programs[s.tunLock.value], s, s.tunLock.value, s.threads[s.tunLock.value]))
  }

  /** The handlers differ at most in who holds their semaphores. */
  ghost predicate SameFlags(s: State, u: State) {
    && u.current == s.current && u.hooks == s.hooks && u.handlers.Keys == s.handlers.Keys
    && forall h :: h in s.handlers ==>
         && u.handlers[h].closed == s.handlers[h].closed && u.handlers[h].listener == s.handlers[h].listener
         && u.handlers[h].callback == s.handlers[h].callback
  }

  lemma HotStepFlags(programs: seq<Program>, s: State, a: Action)
    requires Invariant(programs, s) && Enabled(programs, s, a) && programs[a.t].Hot?
    ensures SameFlags(s, Do(programs, s, a)) && Do(programs, s, a).tunLock == s.tunLock != Some(a.t)
  {
    assert ProgramOk(a.t, programs[a.t], s.threads[a.t]);
    if Writes(programs, s, a.t).Some? {
      WritesExisting(programs, s, a);
    }
  }

  lemma HolderStepEffects(programs: seq<Program>, s: State, a: Action)
    requires HooksOk(s) && Effects(programs, s) && Enabled(programs, s, a) && !programs[a.t].Hot?
    requires ProgramOk(a.t, programs[a.t], s.threads[a.t])
    requires if s.threads[a.t].Idle? then s.tunLock == None else s.tunLock == Some(a.t)
    requires HoldsTunLock(s.threads[a.t]) || s.threads[a.t].Idle?
    requires s.threads[a.t].Stopped? ==> a.t !in s.handlers
    requires Fresh(s.threads[a.t]) ==> CallbackOk(programs, s, a.t) && a.t in s.handlers
    ensures var u := Do(programs, s, a);
            && OthersTorn(u)
            && if s.threads[a.t].Leaving? then Settled(u) else Achieved(programs[a.t], u, a.t, u.threads[a.t])
  {
  }

  lemma StepEffects(programs: seq<Program>, s: State, a: Action)
    requires Invariant(programs, s) && Effects(programs, s) && Enabled(programs, s, a)
    ensures Effects(programs, Do(programs, s, a))
  {
    assert ProgramOk(a.t, programs[a.t], s.threads[a.t]);
    if programs[a.t].Hot? {
      HotStepFlags(programs, s, a);
    } else {
      assert CallbackOk(programs, s, a.t);
      HolderStepEffects(programs, s, a);
      StepLocks(programs, s, a);
    }
  }

  lemma LastStep(programs: seq<Program>, run: seq<State>) returns (a: Action)
    requires IsRun(programs, run) && |run| > 1
    ensures IsRun(programs, run[..|run| - 1])
    ensures Enabled(programs, run[|run| - 2], a) && run[|run| - 1] == Do(programs, run[|run| - 2], a)
  {
    assert Follows(programs, run[|run| - 2], run[|run| - 1]);
    a :| Enabled(programs, run[|run| - 2], a) && run[|run| - 1] == Do(programs, run[|run| - 2], a);
  }

  lemma {:induction false} RunEffects(programs: seq<Program>, run: seq<State>)
    requires IsRun(programs, run)
    ensures Invariant(programs, run[|run| - 1]) && Effects(programs, run[|run| - 1])
  {
    RunInvariant(programs, run);
    if |run| > 1 {
      var a := LastStep(programs, run);
      RunEffects(programs, run[..|run| - 1]);
      StepEffects(programs, run[|run| - 2], a);
    }
  }

  // ----- Stops

  /** When a stop, or a start without a usable fd, is about to return, no handler is open,
      no hook is in, and every handler's callback has been released. */
  lemma StopLeavesNothingOpen(programs: seq<Program>, run: seq<State>, t: Tid)
    requires IsRun(programs, run) && t < |programs| && programs[t] != Start(true)
    requires t < |run[|run| - 1].threads| && run[|run| - 1].threads[t].Leaving?
    ensures var s := run[|run| - 1];
            !s.hooks && forall h :: h in s.handlers ==> Torn(s.handlers[h]) && s.released[h] == 1
  {
    RunEffects(programs, run);
    var s := run[|run| - 1];
    forall h | h in s.handlers ensures Torn(s.handlers[h]) && s.released[h] == 1 {
      assert CallbackOk(programs, s, h);
    }
  }

  /** Neither done with the handlers it found nor past them. */
  predicate BeforeStopped(pc: Pc) {
    pc.Idle? || pc.Stopping? || (pc.Clearing? && !pc.failed)
  }

  lemma StepTears(programs: seq<Program>, s: State, a: Action, t: Tid, h: Tid)
    requires Invariant(programs, s) && Effects(programs, s) && Enabled(programs, s, a)
    requires t < |s.threads| && t < |programs| && !programs[t].Hot? && h in s.handlers
    requires BeforeStopped(s.threads[t]) || Torn(s.handlers[h])
    ensures var u := Do(programs, s, a);
            t < |u.threads| && h in u.handlers && (BeforeStopped(u.threads[t]) || Torn(u.handlers[h]))
  {
    StepEffects(programs, s, a);
    StepInvariant(programs, s, a);
    assert ProgramOk(a.t, programs[a.t], s.threads[a.t]);
    if Writes(programs, s, a.t).Some? {
      WritesExisting(programs, s, a);
    }
    var u := Do(programs, s, a);
    if Torn(s.handlers[h]) {
      TornStays(programs, s, a, h);
    } else {
      assert u.threads[t].Stopped? ==> u.tunLock == Some(t);
    }
  }

  lemma TornStays(programs: seq<Program>, s: State, a: Action, h: Tid)
    requires Invariant(programs, s) && Enabled(programs, s, a) && h in s.handlers && Torn(s.handlers[h])
    ensures h in Do(programs, s, a).handlers && Torn(Do(programs, s, a).handlers[h])
  {
    StepStaysClosed(programs, s, a, h);
    assert CallbackOk(programs, s, h);
    if Writes(programs, s, a.t).Some? {
      assert ProgramOk(a.t, programs[a.t], s.threads[a.t]);
      WritesExisting(programs, s, a);
    }
  }

  /** Whatever handler there is when a stop or a start is called: when the call is about
      to return, or has returned, that handler is closed, its listener too, and its
      callback is released. */
  lemma {:induction false} StopClosesWhatItFinds(programs: seq<Program>, run: seq<State>, j: nat, t: Tid, h: Tid)
    requires IsRun(programs, run) && j < |run| && t < |programs| && !programs[t].Hot?
    requires t < |run[j].threads| && run[j].threads[t].Idle? && h in run[j].handlers
    ensures var s := run[|run| - 1];
            && t < |s.threads| && h in s.handlers
            && (!BeforeStopped(s.threads[t]) ==> Torn(s.handlers[h]) && s.released[h] == 1)
    decreases |run|
  {
    RunEffects(programs, run);
    if j < |run| - 1 {
      var a := LastStep(programs, run);
      var front := run[..|run| - 1];
      StopClosesWhatItFinds(programs, front, j, t, h);
      RunEffects(programs, front);
      StepTears(programs, front[|front| - 1], a, t, h);
    }
    assert CallbackOk(programs, run[|run| - 1], h);
  }

  // ----- Starts

  /** Past an opening that answered ok: the handler is current and open, with the hooks
      in, until the start gives tunLock back. */
  ghost predicate Opens(s: State, t: Tid, ok: bool) {
    && t < |s.threads|
    && (match s.threads[t]
        case Opened => ok
        case Clearing(_, _, failed) => !ok && failed
        case Unlocking => Result(s, t, ok)
        case Leaving => Result(s, t, ok)
        case Finished => true
        case _ => false)
  }

  ghost predicate Result(s: State, t: Tid, ok: bool) {
    && s.current == Some(t) && t in s.handlers
    && if ok then Open(s.handlers[t]) && s.hooks && s.released[t] == 0
       else Torn(s.handlers[t]) && !s.hooks && s.released[t] == 1
  }

  lemma OthersKeepHandler(programs: seq<Program>, s: State, a: Action, t: Tid)
    requires Invariant(programs, s) && Enabled(programs, s, a) && s.tunLock == Some(t) && a.t != t
    ensures SameFlags(s, Do(programs, s, a))
  {
    assert ProgramOk(a.t, programs[a.t], s.threads[a.t]);
    if Writes(programs, s, a.t).Some? {
      WritesExisting(programs, s, a);
    }
  }

  lemma StepOpens(programs: seq<Program>, s: State, a: Action, t: Tid, ok: bool)
    requires Invariant(programs, s) && Effects(programs, s) && Enabled(programs, s, a)
    requires t < |programs| && programs[t] == Start(true) && Opens(s, t, ok)
    ensures Opens(Do(programs, s, a), t, ok)
  {
    StepEffects(programs, s, a);
    StepInvariant(programs, s, a);
    assert ProgramOk(a.t, programs[a.t], s.threads[a.t]);
    var u := Do(programs, s, a);
    assert CallbackOk(programs, u, t) && CallbackOk(programs, s, t);
    if a.t == t {
      assert HoldsTunLock(u.threads[t]) <==> u.tunLock == Some(t);
    } else if s.tunLock == Some(t) {
      OthersKeepHandler(programs, s, a, t);
    }
  }

  lemma OpeningStep(programs: seq<Program>, s: State, t: Tid, ok: bool)
    requires Invariant(programs, s) && Enabled(programs, s, Action(t, ok)) && s.threads[t].Opening?
    ensures programs[t] == Start(true) && Opens(Do(programs, s, Action(t, ok)), t, ok)
  {
    assert ProgramOk(t, programs[t], s.threads[t]);
  }

  lemma {:induction false} OpensOn(programs: seq<Program>, run: seq<State>, j: nat, t: Tid, ok: bool)
    requires IsRun(programs, run) && j < |run| && t < |programs| && programs[t] == Start(true)
    requires Opens(run[j], t, ok)
    ensures Opens(run[|run| - 1], t, ok)
    decreases |run|
  {
    if j < |run| - 1 {
      var a := LastStep(programs, run);
      var front := run[..|run| - 1];
      OpensOn(programs, front, j, t, ok);
      RunEffects(programs, front);
      StepOpens(programs, front[|front| - 1], a, t, ok);
    }
  }

  /** A start leaves what opening its device answered: from an opening that succeeds the
      start's own handler comes out current and open, with a listener, its callback and
      the hooks; from one that fails it comes out torn down, its callback released. */
  lemma StartLeavesWhatOpeningAnswered(programs: seq<Program>, run: seq<State>, j: nat, t: Tid, ok: bool)
    requires IsRun(programs, run) && j + 1 < |run| && t < |run[j].threads| && run[j].threads[t].Opening?
    requires Enabled(programs, run[j], Action(t, ok)) && run[j + 1] == Do(programs, run[j], Action(t, ok))
    ensures Opens(run[|run| - 1], t, ok)
  {
    RunInvariant(programs, run[..j + 1]);
    OpeningStep(programs, run[j], t, ok);
    OpensOn(programs, run, j + 1, t, ok);
  }

  predicate BeforeOpened(pc: Pc) {
    BeforeHandler(pc) || Fresh(pc)
  }

  ghost predicate IsOpening(s: State, t: Tid) {
    t < |s.threads| && s.threads[t].Opening?
  }

  lemma BeforeOpenedStep(programs: seq<Program>, s: State, a: Action, t: Tid)
    requires Invariant(programs, s) && Enabled(programs, s, a)
    requires t < |programs| && programs[t] == Start(true) && t < |s.threads| && BeforeOpened(s.threads[t])
    ensures t < |Do(programs, s, a).threads|
    ensures BeforeOpened(Do(programs, s, a).threads[t]) || IsOpening(s, t)
  {
  }

  /** A start with a usable fd never returns without having tried to open its device. */
  lemma {:induction false} StartTriesToOpen(programs: seq<Program>, run: seq<State>, t: Tid)
    requires IsRun(programs, run) && t < |programs| && programs[t] == Start(true)
    ensures t < |run[|run| - 1].threads|
    ensures BeforeOpened(run[|run| - 1].threads[t]) || exists i :: 0 <= i < |run| && IsOpening(run[i], t)
  {
    if |run| > 1 {
      var a := LastStep(programs, run);
      var front := run[..|run| - 1];
      StartTriesToOpen(programs, front, t);
      if i :| 0 <= i < |front| && IsOpening(front[i], t) {
        assert IsOpening(run[i], t);
      } else {
        RunInvariant(programs, front);
        BeforeOpenedStep(programs, front[|front| - 1], a, t);
      }
    }
  }

  // ----- Hot paths

  ghost predicate FencedOpen(s: State, t: Tid, h: Tid) {
    t < |s.threads| && s.threads[t] == Fenced(h) && h in s.handlers && !s.handlers[h].closed
  }

  ghost predicate IsUpcalling(s: State, t: Tid, h: Tid) {
    t < |s.threads| && s.threads[t] == Upcalling(h)
  }

  ghost predicate UpcallsSince(run: seq<State>, j: nat, t: Tid, h: Tid) {
    exists i :: j <= i < |run| && IsUpcalling(run[i], t, h)
  }

  lemma FencedStep(programs: seq<Program>, s: State, a: Action, t: Tid, h: Tid)
    requires Invariant(programs, s) && Enabled(programs, s, a) && FencedOpen(s, t, h)
    ensures var u := Do(programs, s, a);
            if a.t == t then IsUpcalling(u, t, h) else FencedOpen(u, t, h)
  {
    assert t in s.handlers[h].shared;
    assert ProgramOk(a.t, programs[a.t], s.threads[a.t]);
    if Writes(programs, s, a.t).Some? {
      WritesExisting(programs, s, a);
    }
  }

  lemma FencedLastStep(programs: seq<Program>, run: seq<State>, a: Action, t: Tid, h: Tid)
    requires IsRun(programs, run) && Enabled(programs, run[|run| - 1], a) && FencedOpen(run[|run| - 1], t, h)
    ensures var u := Do(programs, run[|run| - 1], a); IsUpcalling(u, t, h) || FencedOpen(u, t, h)
  {
    RunInvariant(programs, run);
    FencedStep(programs, run[|run| - 1], a, t, h);
  }

  lemma UpcallsGrow(run: seq<State>, j: nat, t: Tid, h: Tid)
    requires j < |run|
    ensures UpcallsSince(run[..|run| - 1], j, t, h) || IsUpcalling(run[|run| - 1], t, h) ==> UpcallsSince(run, j, t, h)
  {
    if UpcallsSince(run[..|run| - 1], j, t, h) {
      var i :| j <= i < |run| - 1 && IsUpcalling(run[..|run| - 1][i], t, h);
      assert run[i] == run[..|run| - 1][i];
    }
  }

  /** Between a hot path's unit and its look at closed nobody can close the handler: if
      it was open the upcall follows. */
  lemma {:induction false} FencedUpcalls(programs: seq<Program>, run: seq<State>, j: nat, t: Tid, h: Tid)
    requires IsRun(programs, run) && j < |run| && FencedOpen(run[j], t, h)
    ensures FencedOpen(run[|run| - 1], t, h) || UpcallsSince(run, j, t, h)
    decreases |run|
  {
    if j < |run| - 1 {
      var a := LastStep(programs, run);
      var front := run[..|run| - 1];
      assert front[j] == run[j];
      FencedUpcalls(programs, front, j, t, h);
      if !UpcallsSince(front, j, t, h) {
        FencedLastStep(programs, front, a, t, h);
      }
      UpcallsGrow(run, j, t, h);
    }
  }

  /** What excuses a hot path from its upcall: no hook to call, or a closed handler; or
      it is making the upcall. */
  ghost predicate Answers(s: State, t: Tid) {
    && t < |s.threads|
    && match s.threads[t]
       case Calling => !s.hooks
       case Fenced(h) => h in s.handlers && s.handlers[h].closed
       case Upcalling(_) => true
       case _ => false
  }

  predicate BeforeUpcall(pc: Pc) {
    pc.Idle? || pc.Calling? || pc.Hooked? || pc.Reached? || pc.Fenced?
  }

  lemma BeforeUpcallStep(programs: seq<Program>, s: State, a: Action, t: Tid)
    requires Invariant(programs, s) && Enabled(programs, s, a)
    requires t < |programs| && programs[t].Hot? && t < |s.threads| && BeforeUpcall(s.threads[t])
    ensures var u := Do(programs, s, a);
            t < |u.threads| && (BeforeUpcall(u.threads[t]) || Answers(s, t) || Answers(u, t))
  {
  }

  /** A hot path makes its upcall unless it found no hook, or its handler closed. */
  lemma {:induction false} HotPathUpcalls(programs: seq<Program>, run: seq<State>, t: Tid)
    requires IsRun(programs, run) && t < |programs| && programs[t].Hot?
    ensures t < |run[|run| - 1].threads|
    ensures BeforeUpcall(run[|run| - 1].threads[t]) || exists i :: 0 <= i < |run| && Answers(run[i], t)
  {
    if |run| > 1 {
      var a := LastStep(programs, run);
      var front := run[..|run| - 1];
      HotPathUpcalls(programs, front, t);
      if i :| 0 <= i < |front| && Answers(front[i], t) {
        assert Answers(run[i], t);
      } else {
        RunInvariant(programs, front);
        assert !Answers(front[|front| - 1], t);
        BeforeUpcallStep(programs, front[|front| - 1], a, t);
        assert Answers(run[|run| - 1], t) || BeforeUpcall(run[|run| - 1].threads[t]);
      }
    }
  }

  /** The handler of whose semaphore the thread wants the whole, or one unit. */
  function NeededHandler(pc: Pc, s: State, t: Tid): Option<Tid> {
    match pc
    case Stopping => s.current
    case Locked => Some(t)
    case Reached(h) => Some(h)
    case _ => None
  }

  /** A thread waits only while others hold what it needs: tunLock or runLock, any part
      of the semaphore it wants whole, or, for one unit, all four or the whole. */
  lemma WaitsOnlyForHolders(programs: seq<Program>, run: seq<State>, t: Tid)
    requires IsRun(programs, run) && t < |programs|
    requires t < |run[|run| - 1].threads| && run[|run| - 1].threads[t] != Finished
    ensures var s := run[|run| - 1];
            || Enabled(programs, s, Action(t, true))
            || (s.threads[t].Idle? && !programs[t].Hot? && s.tunLock.Some?)
            || (s.threads[t].Idle? && programs[t] == Hot(true) && s.runLock.Some?)
            || (s.threads[t].Created? && s.runLock.Some?)
            || (NeededHandler(s.threads[t], s, t).Some? && NeededHandler(s.threads[t], s, t).value in s.handlers
                && var handler := s.handlers[NeededHandler(s.threads[t], s, t).value];
                   handler.exclusive.Some? || |handler.shared| > if s.threads[t].Reached? then 3 else 0)
  {
    RunInvariant(programs, run);
    assert CallbackOk(programs, run[|run| - 1], t);
  }
}
