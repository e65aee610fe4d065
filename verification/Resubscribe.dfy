/** Subscribing and unsubscribing the connections ticker and the log fan-out: one
    lock, a recorded goroutine that is cancelled and waited for, as interleaved steps. */
module Resubscribe {

  import opened Options

  /** Both streams hand over alike; they differ in when the handles are cleared, and
      a log subscription may fail. */
  datatype Kind = Connections | Log

  /** subscribes says whether the observable grants a log subscription. */
  datatype Program = Start(subscribes: bool) | Stop

  datatype Pc =
    | Idle
    | Locked           // the lock is held
    | Waiting          // the recorded goroutine is cancelled; its exit is awaited
    | Stopped          // no goroutine of the stream is left
    | Leaving          // the lock is about to be released
    | Done

  /** A goroutine of the stream. A ticker may still send before it sees that it is
      cancelled; a log fan-out drains the events left in its closed channel. */
  datatype Worker = Worker(cancelled: bool, pending: nat, sending: bool, exited: bool)

  /** handle is connectionsCancel or logSubscriber, done is connectionsDone or logDone;
      both name a goroutine. sent lists the senders of the messages so far. */
  datatype State = State(
    pcs: seq<Pc>,
    workers: seq<Worker>,
    handle: Option<nat>,
    done: Option<nat>,
    lock: Option<nat>,
    sent: seq<nat>)

  function Init(n: nat): State {
    State(seq(n, _ => Idle), [], None, None, None, [])
  }

  // ----- Steps

  /** A thread's statement, a log event coming in, a goroutine picking up a tick or an
      event, to send it or to pass over it, its send, or its exit. */
  datatype Action = Step(t: nat) | Arrive(g: nat) | Tick(g: nat, shown: bool) | Send(g: nat) | Exit(g: nat)

  predicate Alive(s: State, g: nat) {
    g < |s.workers| && !s.workers[g].exited
  }

  predicate Enabled(kind: Kind, programs: seq<Program>, s: State, a: Action) {
    match a
    case Step(t) =>
      && t < |programs| && t < |s.pcs| && !s.pcs[t].Done?
      && (s.pcs[t].Idle? ==> s.lock.None?)
      && (s.pcs[t].Waiting? && s.done.Some? ==> !Alive(s, s.done.value))
    case Arrive(g) => kind.Log? && Alive(s, g) && !s.workers[g].cancelled
    case Tick(g, shown) =>
      Alive(s, g) && !s.workers[g].sending && (if kind.Log? then s.workers[g].pending > 0 else shown)
    case Send(g) => Alive(s, g) && s.workers[g].sending
    case Exit(g) =>
      Alive(s, g) && !s.workers[g].sending && s.workers[g].cancelled && (kind.Log? ==> s.workers[g].pending == 0)
  }

  function NextPc(kind: Kind, programs: seq<Program>, s: State, t: nat): Pc
    requires Enabled(kind, programs, s, Step(t))
  {
    match s.pcs[t]
    case Idle => Locked
    case Locked => if s.handle.Some? then Waiting else Stopped
    case Waiting => Stopped
    case Stopped => Leaving
    case Leaving => Done
    case Done => Done
  }

  /** A start that goes through spawns its goroutine once the previous one is gone. */
  predicate Spawns(kind: Kind, program: Program, pc: Pc) {
    pc.Stopped? && program.Start? && (kind.Connections? || program.subscribes)
  }

  function NextWorkers(kind: Kind, programs: seq<Program>, s: State, t: nat): seq<Worker>
    requires Enabled(kind, programs, s, Step(t))
  {
    if s.pcs[t].Locked? && s.handle.Some? && s.handle.value < |s.workers| then
      s.workers[s.handle.value := s.workers[s.handle.value].(cancelled := true)]
    else if Spawns(kind, programs[t], s.pcs[t]) then s.workers + [Worker(false, 0, false, false)]
    else s.workers
  }

  function NextHandle(kind: Kind, programs: seq<Program>, s: State, t: nat): Option<nat>
    requires Enabled(kind, programs, s, Step(t))
  {
    if Spawns(kind, programs[t], s.pcs[t]) then Some(|s.workers|)
    else if kind.Log? && s.pcs[t].Locked? then None
    else if kind.Connections? && s.pcs[t].Waiting? && programs[t].Stop? then None
    else s.handle
  }

  function NextDone(kind: Kind, programs: seq<Program>, s: State, t: nat): Option<nat>
    requires Enabled(kind, programs, s, Step(t))
  {
    if Spawns(kind, programs[t], s.pcs[t]) then Some(|s.workers|)
    else if s.pcs[t].Waiting? && (kind.Log? || programs[t].Stop?) then None
    else s.done
  }

  function Do(kind: Kind, programs: seq<Program>, s: State, a: Action): State
    requires Enabled(kind, programs, s, a)
  {
    match a
    case Step(t) =>
      State(s.pcs[t := NextPc(kind, programs, s, t)], NextWorkers(kind, programs, s, t),
            NextHandle(kind, programs, s, t), NextDone(kind, programs, s, t),
            if s.pcs[t].Idle? then Some(t) else if s.pcs[t].Leaving? then None else s.lock, s.sent)
    case Arrive(g) => s.(workers := s.workers[g := s.workers[g].(pending := s.workers[g].pending + 1)])
    case Tick(g, shown) =>
      var left := if kind.Log? then s.workers[g].pending - 1 else 0;
      s.(workers := s.workers[g := s.workers[g].(pending := left, sending := shown)])
    case Send(g) => s.(workers := s.workers[g := s.workers[g].(sending := false)], sent := s.sent + [g])
    case Exit(g) => s.(workers := s.workers[g := s.workers[g].(exited := true)])
  }

  ghost predicate Follows(kind: Kind, programs: seq<Program>, s: State, u: State) {
    exists a :: Enabled(kind, programs, s, a) && u == Do(kind, programs, s, a)
  }

  ghost predicate IsRun(kind: Kind, programs: seq<Program>, run: seq<State>) {
    && |run| > 0 && run[0] == Init(|programs|)
    && forall j :: 0 <= j < |run| - 1 ==> Follows(kind, programs, run[j], run[j + 1])
  }

  // ----- The invariant

  ghost predicate LockOk(programs: seq<Program>, s: State) {
    && |s.pcs| == |programs|
    && (s.lock.Some? ==> s.lock.value < |programs|)
    && forall t :: 0 <= t < |programs| ==> (s.lock == Some(t) <==> !s.pcs[t].Idle? && !s.pcs[t].Done?)
  }

  /** The recorded handles name the one goroutine there is, not yet cancelled. */
  ghost predicate Recorded(s: State) {
    && s.handle == s.done
    && (s.handle.Some? ==> Alive(s, s.handle.value) && !s.workers[s.handle.value].cancelled)
  }

  ghost predicate NobodyAlive(s: State) {
    forall g :: 0 <= g < |s.workers| ==> s.workers[g].exited
  }

  /** A start that goes through leaves the newest goroutine recorded; any other call leaves none. */
  ghost predicate LeavesHandle(kind: Kind, program: Program, s: State) {
    s.handle == if program.Start? && (kind.Connections? || program.subscribes) && |s.workers| > 0
                then Some(|s.workers| - 1) else None
  }

  ghost predicate HandleOk(kind: Kind, programs: seq<Program>, s: State)
    requires |s.pcs| == |programs|
  {
    && (forall g :: 0 <= g < |s.workers| && !s.workers[g].exited ==> s.done == Some(g))
    && (if s.lock.Some? && s.lock.value < |s.pcs| then
          match s.pcs[s.lock.value]
          case Waiting => s.done.Some? && s.done.value < |s.workers| && s.workers[s.done.value].cancelled
                          && (if kind.Log? then s.handle.None? else s.handle == s.done)
          case Stopped => NobodyAlive(s) && (kind.Log? || programs[s.lock.value].Stop? ==> s.handle == s.done == None)
          case Leaving => Recorded(s) && LeavesHandle(kind, programs[s.lock.value], s)
          case _ => Recorded(s)
        else Recorded(s))
  }

  ghost predicate Invariant(kind: Kind, programs: seq<Program>, s: State) {
    LockOk(programs, s) && HandleOk(kind, programs, s)
  }

  lemma StepInvariant(kind: Kind, programs: seq<Program>, s: State, a: Action)
    requires Invariant(kind, programs, s) && Enabled(kind, programs, s, a)
    ensures Invariant(kind, programs, Do(kind, programs, s, a))
  {
    StepLock(kind, programs, s, a);
    if a.Step? {
      StepHandle(kind, programs, s, a.t);
    } else {
      StreamHandle(kind, programs, s, a);
    }
  }

  lemma StepLock(kind: Kind, programs: seq<Program>, s: State, a: Action)
    requires LockOk(programs, s) && Enabled(kind, programs, s, a)
    ensures LockOk(programs, Do(kind, programs, s, a))
  {
  }

  lemma StepHandle(kind: Kind, programs: seq<Program>, s: State, t: nat)
    requires Invariant(kind, programs, s) && Enabled(kind, programs, s, Step(t))
    ensures |Do(kind, programs, s, Step(t)).pcs| == |programs|
    ensures HandleOk(kind, programs, Do(kind, programs, s, Step(t)))
  {
  }

  /** A step of a goroutine moves no handle, and only a cancelled one exits. */
  lemma StreamHandle(kind: Kind, programs: seq<Program>, s: State, a: Action)
    requires Invariant(kind, programs, s) && Enabled(kind, programs, s, a) && !a.Step?
    ensures |Do(kind, programs, s, a).pcs| == |programs|
    ensures HandleOk(kind, programs, Do(kind, programs, s, a))
  {
  }

  lemma LastStep(kind: Kind, programs: seq<Program>, run: seq<State>) returns (a: Action)
    requires IsRun(kind, programs, run) && |run| > 1
    ensures IsRun(kind, programs, run[..|run| - 1])
    ensures Enabled(kind, programs, run[|run| - 2], a) && run[|run| - 1] == Do(kind, programs, run[|run| - 2], a)
  {
    assert Follows(kind, programs, run[|run| - 2], run[|run| - 1]);
    a :| Enabled(kind, programs, run[|run| - 2], a) && run[|run| - 1] == Do(kind, programs, run[|run| - 2], a);
  }

  lemma {:induction false} RunInvariant(kind: Kind, programs: seq<Program>, run: seq<State>)
    requires IsRun(kind, programs, run)
    ensures Invariant(kind, programs, run[|run| - 1])
  {
    if |run| > 1 {
      var a := LastStep(kind, programs, run);
      RunInvariant(kind, programs, run[..|run| - 1]);
      StepInvariant(kind, programs, run[|run| - 2], a);
    }
  }

  // ----- What holds over whole runs

  /** At most one goroutine of the stream is alive; whenever the lock is free the
      handles name it, or there is none. */
  lemma OneAtATime(kind: Kind, programs: seq<Program>, run: seq<State>, g: nat, h: nat)
    requires IsRun(kind, programs, run)
    ensures Alive(run[|run| - 1], g) && Alive(run[|run| - 1], h) ==> g == h
    ensures run[|run| - 1].lock == None ==> (Alive(run[|run| - 1], g) <==> run[|run| - 1].handle == Some(g))
    ensures run[|run| - 1].lock == None ==> run[|run| - 1].done == run[|run| - 1].handle
  {
    RunInvariant(kind, programs, run);
  }

  /** When a stop is about to return, no goroutine of the stream is left. */
  lemma NobodyLeftOnReturn(kind: Kind, programs: seq<Program>, run: seq<State>, t: nat, g: nat)
    requires IsRun(kind, programs, run) && t < |programs|
    requires t < |run[|run| - 1].pcs| && run[|run| - 1].pcs[t].Leaving? && programs[t].Stop?
    ensures !Alive(run[|run| - 1], g)
  {
    RunInvariant(kind, programs, run);
    var s := run[|run| - 1];
    assert s.lock == Some(t);
  }

  /** No goroutine that was there when a stop returned ever sends again. */
  lemma {:induction false} NoMessageAfterStop(kind: Kind, programs: seq<Program>, run: seq<State>, j: nat, t: nat)
    requires IsRun(kind, programs, run) && j < |run| && t < |programs|
    requires t < |run[j].pcs| && run[j].pcs[t].Leaving? && programs[t].Stop?
    ensures var s := run[|run| - 1];
            && |run[j].sent| <= |s.sent| && |run[j].workers| <= |s.workers|
            && (forall g :: 0 <= g < |run[j].workers| ==> s.workers[g].exited)
            && (forall m :: |run[j].sent| <= m < |s.sent| ==> s.sent[m] >= |run[j].workers|)
    decreases |run|
  {
    if j == |run| - 1 {
      forall g | 0 <= g < |run[j].workers| ensures run[j].workers[g].exited {
        NobodyLeftOnReturn(kind, programs, run, t, g);
      }
    } else {
      var a := LastStep(kind, programs, run);
      NoMessageAfterStop(kind, programs, run[..|run| - 1], j, t);
    }
  }

  /** A waiting thread is never stuck: it can go on, or the goroutine it awaits is
      cancelled and can take a step towards its exit. */
  lemma WaitEnds(kind: Kind, programs: seq<Program>, run: seq<State>, t: nat)
    requires IsRun(kind, programs, run) && t < |programs|
    requires t < |run[|run| - 1].pcs| && run[|run| - 1].pcs[t].Waiting?
    ensures var s := run[|run| - 1];
            && s.done.Some? && s.done.value < |s.workers| && s.workers[s.done.value].cancelled
            && (Enabled(kind, programs, s, Step(t)) || Enabled(kind, programs, s, Exit(s.done.value))
                || Enabled(kind, programs, s, Send(s.done.value))
                || Enabled(kind, programs, s, Tick(s.done.value, false)))
  {
    RunInvariant(kind, programs, run);
    assert run[|run| - 1].lock == Some(t);
  }

  /** Goroutine steps a cancelled log fan-out still has before its exit. */
  function Undrained(worker: Worker): nat {
    2 * worker.pending + if worker.sending then 1 else 0
  }

  /** A closed log channel takes no new event, and each step of the fan-out drains it further. */
  lemma CancelledDrains(programs: seq<Program>, s: State, a: Action, g: nat)
    requires Enabled(Log, programs, s, a) && !a.Step? && a.g == g && s.workers[g].cancelled && !a.Exit?
    ensures Undrained(Do(Log, programs, s, a).workers[g]) < Undrained(s.workers[g])
    ensures Do(Log, programs, s, a).workers[g].cancelled
  {
  }

  /** The call has not waited yet, or the goroutine is gone. */
  ghost predicate EndsIt(s: State, t: nat, g: nat) {
    && t < |s.pcs| && g < |s.workers|
    && (s.pcs[t].Idle? || s.pcs[t].Locked? || s.pcs[t].Waiting? || s.workers[g].exited)
  }

  lemma StepEnds(kind: Kind, programs: seq<Program>, s: State, a: Action, t: nat, g: nat)
    requires Invariant(kind, programs, s) && Enabled(kind, programs, s, a) && EndsIt(s, t, g)
    ensures EndsIt(Do(kind, programs, s, a), t, g)
  {
    var u := Do(kind, programs, s, a);
    StepInvariant(kind, programs, s, a);
    if a == Step(t) && u.pcs[t].Stopped? {
      assert u.lock == Some(t) && NobodyAlive(u);
    }
  }

  lemma LastStepEnds(kind: Kind, programs: seq<Program>, run: seq<State>, a: Action, t: nat, g: nat)
    requires IsRun(kind, programs, run) && Enabled(kind, programs, run[|run| - 1], a) && EndsIt(run[|run| - 1], t, g)
    ensures EndsIt(Do(kind, programs, run[|run| - 1], a), t, g)
  {
    RunInvariant(kind, programs, run);
    StepEnds(kind, programs, run[|run| - 1], a, t, g);
  }

  /** Whatever goroutine there is when a stop or a start is called: once the call has
      waited, that goroutine is gone, and stays gone. */
  lemma {:induction false} StopEndsWhatItFinds(
    kind: Kind, programs: seq<Program>, run: seq<State>, j: nat, t: nat, g: nat)
    requires IsRun(kind, programs, run) && j < |run| && t < |run[j].pcs| && run[j].pcs[t].Idle?
    requires g < |run[j].workers|
    ensures EndsIt(run[|run| - 1], t, g)
    decreases |run|
  {
    if j < |run| - 1 {
      var a := LastStep(kind, programs, run);
      var front := run[..|run| - 1];
      assert front[j] == run[j];
      StopEndsWhatItFinds(kind, programs, front, j, t, g);
      LastStepEnds(kind, programs, front, a, t, g);
    }
  }

  // ----- Subscriptions that go through

  lemma {:induction false} WorkersStay(kind: Kind, programs: seq<Program>, run: seq<State>, j: nat)
    requires IsRun(kind, programs, run) && j < |run|
    ensures |run[j].workers| <= |run[|run| - 1].workers|
    decreases |run|
  {
    if j < |run| - 1 {
      var a := LastStep(kind, programs, run);
      WorkersStay(kind, programs, run[..|run| - 1], j);
    }
  }

  /** Not spawned yet, or one goroutine more than there were. */
  ghost predicate SpawnsBeyond(s: State, t: nat, n: nat) {
    t < |s.pcs| && |s.workers| >= n && (s.pcs[t].Leaving? || s.pcs[t].Done? ==> |s.workers| > n)
  }

  lemma {:induction false} StartSpawns(kind: Kind, programs: seq<Program>, run: seq<State>, j: nat, t: nat)
    requires IsRun(kind, programs, run) && j < |run| && t < |programs| && t < |run[j].pcs| && run[j].pcs[t].Idle?
    requires programs[t].Start? && (kind.Connections? || programs[t].subscribes)
    ensures SpawnsBeyond(run[|run| - 1], t, |run[j].workers|)
    decreases |run|
  {
    if j < |run| - 1 {
      var a := LastStep(kind, programs, run);
      StartSpawns(kind, programs, run[..|run| - 1], j, t);
      StepSpawns(kind, programs, run[|run| - 2], a, t, |run[j].workers|);
    }
  }

  lemma StepSpawns(kind: Kind, programs: seq<Program>, s: State, a: Action, t: nat, n: nat)
    requires Enabled(kind, programs, s, a) && SpawnsBeyond(s, t, n)
    requires t < |programs| && programs[t].Start? && (kind.Connections? || programs[t].subscribes)
    ensures SpawnsBeyond(Do(kind, programs, s, a), t, n)
  {
  }

  /** When a subscription that goes through is about to return, the handles name a
      goroutine of its own, made after the call, that is alive and not cancelled. */
  lemma StartLeavesItsGoroutine(kind: Kind, programs: seq<Program>, run: seq<State>, j: nat, t: nat)
    requires IsRun(kind, programs, run) && j < |run| && t < |programs| && t < |run[j].pcs| && run[j].pcs[t].Idle?
    requires programs[t].Start? && (kind.Connections? || programs[t].subscribes)
    requires t < |run[|run| - 1].pcs| && run[|run| - 1].pcs[t].Leaving?
    ensures var s := run[|run| - 1];
            && s.handle.Some? && s.handle == s.done && s.handle.value >= |run[j].workers|
            && Alive(s, s.handle.value) && !s.workers[s.handle.value].cancelled
  {
    RunInvariant(kind, programs, run);
    StartSpawns(kind, programs, run, j, t);
  }

  /** A log subscription that is refused leaves no goroutine. */
  lemma RefusedStartLeavesNone(kind: Kind, programs: seq<Program>, run: seq<State>, t: nat, g: nat)
    requires IsRun(kind, programs, run) && t < |programs| && kind.Log? && programs[t] == Start(false)
    requires t < |run[|run| - 1].pcs| && run[|run| - 1].pcs[t].Leaving?
    ensures run[|run| - 1].handle == None && !Alive(run[|run| - 1], g)
  {
    RunInvariant(kind, programs, run);
  }

  /** A goroutine that is alive and idle sends what it picks up: a tick, or the next event. */
  lemma LiveStreamSends(kind: Kind, programs: seq<Program>, s: State, g: nat)
    requires Alive(s, g) && !s.workers[g].sending && (kind.Log? ==> s.workers[g].pending > 0)
    ensures Enabled(kind, programs, s, Tick(g, true))
    ensures var u := Do(kind, programs, s, Tick(g, true));
            Enabled(kind, programs, u, Send(g)) && Do(kind, programs, u, Send(g)).sent == s.sent + [g]
  {
  }

  /** An event that comes in to an idle log stream is picked up and sent, and nothing else is. */
  lemma ArrivedIsSent(programs: seq<Program>, s: State, g: nat)
    requires Enabled(Log, programs, s, Arrive(g)) && !s.workers[g].sending
    ensures var u := Do(Log, programs, s, Arrive(g));
            Enabled(Log, programs, u, Tick(g, true))
            && (var v := Do(Log, programs, u, Tick(g, true));
                Enabled(Log, programs, v, Send(g))
                && Do(Log, programs, v, Send(g)) == s.(sent := s.sent + [g]))
  {
    var u := Do(Log, programs, s, Arrive(g));
    var v := Do(Log, programs, u, Tick(g, true));
    assert Do(Log, programs, v, Send(g)).workers == s.workers;
  }

  ghost predicate CanStep(kind: Kind, programs: seq<Program>, s: State) {
    exists a :: Enabled(kind, programs, s, a)
  }

  /** While a call has not returned, some step can be taken. */
  lemma NeverStuck(kind: Kind, programs: seq<Program>, run: seq<State>, t: nat)
    requires IsRun(kind, programs, run) && t < |programs|
    requires t < |run[|run| - 1].pcs| && !run[|run| - 1].pcs[t].Done?
    ensures CanStep(kind, programs, run[|run| - 1])
  {
    RunInvariant(kind, programs, run);
    var s := run[|run| - 1];
    var holder := if s.lock.Some? then s.lock.value else t;
    if s.pcs[holder].Waiting? {
      WaitEnds(kind, programs, run, holder);
    } else {
      assert Enabled(kind, programs, s, Step(holder));
    }
  }
}
