/** Starting, stopping and using the TUN handler: the locks, the weighted
    semaphore and the closed flag that fence its callback, as interleaved steps. */
module TunFence {

  import opened Options

  /** Threads are numbered; a start's number also names the callback reference it
      brings and the handler it makes. */
  type Tid = nat

  /** What a thread was started to do: startTUN with or without a usable fd,
      stopTun, or a hot path reached through a hook, under runLock or not. */
  datatype Program = Start(usableFd: bool) | Stop | Hot(underRunLock: bool)

  /** The semaphore is given by who holds it: one unit each, or all of them. */
  datatype Handler = Handler(listener: bool, callback: bool, closed: bool, shared: set<Tid>, exclusive: Option<Tid>)

  const CAPACITY: nat := 4

  function Weight(h: Handler): nat {
    |h.shared| + if h.exclusive.Some? then CAPACITY else 0
  }

  /** The statements of clear, the release of the semaphore last. */
  datatype Clear = MarkClosed | RemoveHook | CloseListener | ReleaseCallback | ReleaseAll

  datatype Pc =
    | Idle                                          // no lock taken yet
    | Stopping                                      // tunLock held, stopTunLocked ahead
    | Clearing(h: Tid, at: Clear, failed: bool)     // all of h's semaphore held; failed: by a failed start
    | Stopped                                       // stopTunLocked done
    | Created                                       // the new handler is current
    | Locked                                        // runLock held, the semaphore ahead
    | Hooking                                       // all of the own semaphore held
    | Opening                                       // hooks installed
    | Opened                                        // listener recorded
    | Unlocking                                     // semaphore released
    | Leaving                                       // runLock released
    | Calling                                       // a hot path, nothing read yet
    | Hooked                                        // a hook was read and called
    | Reached(h: Tid)                               // tunHandler was read
    | Fenced(h: Tid)                                // one unit of h's semaphore held
    | Upcalling(h: Tid)                             // closed was false; the callback is in use
    | Unfencing(h: Tid)
    | Returning                                     // unit released
    | Finished

  datatype State = State(
    threads: seq<Pc>,
    handlers: map<Tid, Handler>,
    current: Option<Tid>,
    hooks: bool,
    tunLock: Option<Tid>,
    runLock: Option<Tid>,
    released: multiset<Tid>,      // callback references released
    listenersClosed: multiset<Tid>)

  function Init(programs: seq<Program>): State {
    State(seq(|programs|, _ => Idle), map[], None, false, None, None, multiset{}, multiset{})
  }

  // ----- Steps

  /** One statement of one thread; ok is the answer of opening the TUN device. */
  datatype Action = Action(t: Tid, ok: bool)

  predicate Enabled(programs: seq<Program>, s: State, a: Action) {
    && a.t < |s.threads| && a.t < |programs|
    && var program := programs[a.t];
       match s.threads[a.t]
       case Idle => if program.Hot? then program.underRunLock ==> s.runLock.None? else s.tunLock.None?
       case Stopping => s.current.Some? && s.current.value in s.handlers ==> Weight(s.handlers[s.current.value]) == 0
       case Clearing(h, _, _) => h in s.handlers
       case Created => s.runLock.None?
       case Locked => a.t in s.handlers && Weight(s.handlers[a.t]) == 0
       case Hooking => a.t in s.handlers
       case Opening => a.t in s.handlers
       case Opened => a.t in s.handlers
       case Hooked => s.current.Some?
       case Reached(h) => h in s.handlers && Weight(s.handlers[h]) + 1 <= CAPACITY
       case Fenced(h) => h in s.handlers
       case Unfencing(h) => h in s.handlers
       case Finished => false
       case _ => true
  }

  /** Where the thread goes. */
  function NextPc(programs: seq<Program>, s: State, a: Action): Pc
    requires Enabled(programs, s, a)
  {
    match s.threads[a.t]
    case Idle => if programs[a.t].Hot? then Calling else Stopping
    case Stopping =>
      if s.current.Some? && s.current.value in s.handlers then Clearing(s.current.value, MarkClosed, false) else Stopped
    case Clearing(h, at, failed) =>
      (match at
       case MarkClosed => Clearing(h, RemoveHook, failed)
       case RemoveHook => Clearing(h, CloseListener, failed)
       case CloseListener => Clearing(h, ReleaseCallback, failed)
       case ReleaseCallback => Clearing(h, ReleaseAll, failed)
       case ReleaseAll => if failed then Unlocking else Stopped)
    case Stopped => if programs[a.t] == Start(true) then Created else Leaving
    case Created => Locked
    case Locked => Hooking
    case Hooking => Opening
    case Opening => if a.ok then Opened else Clearing(a.t, MarkClosed, true)
    case Opened => Unlocking
    case Unlocking => Leaving
    case Leaving => Finished
    case Calling => if s.hooks then Hooked else Returning
    case Hooked => Reached(s.current.value)
    case Reached(h) => Fenced(h)
    case Fenced(h) => if s.handlers[h].closed then Unfencing(h) else Upcalling(h)
    case Upcalling(h) => Unfencing(h)
    case Unfencing(_) => Returning
    case Returning => Finished
    case Finished => Finished
  }

  /** The handler the statement writes, if any. */
  function Writes(programs: seq<Program>, s: State, t: Tid): Option<Tid>
    requires t < |s.threads| && t < |programs|
  {
    match s.threads[t]
    case Stopping => if s.current.Some? && s.current.value in s.handlers then s.current else None
    case Clearing(h, _, _) => Some(h)
    case Stopped => if programs[t] == Start(true) then Some(t) else None
    case Locked => Some(t)
    case Opening => Some(t)
    case Opened => Some(t)
    case Reached(h) => Some(h)
    case Unfencing(h) => Some(h)
    case _ => None
  }

  /** What it writes there. */
  function NextHandler(programs: seq<Program>, s: State, a: Action): Handler
    requires Enabled(programs, s, a) && Writes(programs, s, a.t).Some?
  {
    var t := a.t;
    match s.threads[t]
    case Stopping => s.handlers[s.current.value].(exclusive := Some(t))
    case Clearing(h, at, _) =>
      var handler := s.handlers[h];
      (match at
       case MarkClosed => handler.(closed := true)
       case RemoveHook => handler
       case CloseListener => handler.(listener := false)
       case ReleaseCallback => handler.(callback := false)
       case ReleaseAll => handler.(exclusive := None))
    case Stopped => Handler(false, true, false, {}, None)
    case Locked => s.handlers[t].(exclusive := Some(t))
    case Opening => if a.ok then s.handlers[t].(listener := true) else s.handlers[t]
    case Opened => s.handlers[t].(exclusive := None)
    case Reached(h) => s.handlers[h].(shared := s.handlers[h].shared + {t})
    case Unfencing(h) => s.handlers[h].(shared := s.handlers[h].shared - {t})
  }

  function NextHandlers(programs: seq<Program>, s: State, a: Action): map<Tid, Handler>
    requires Enabled(programs, s, a)
  {
    match Writes(programs, s, a.t)
    case Some(h) => s.handlers[h := NextHandler(programs, s, a)]
    case None => s.handlers
  }

  function NextHooks(s: State, t: Tid): bool
    requires t < |s.threads|
  {
    match s.threads[t]
    case Hooking => true
    case Clearing(_, RemoveHook, _) => false
    case _ => s.hooks
  }

  function NextTunLock(programs: seq<Program>, s: State, t: Tid): Option<Tid>
    requires t < |s.threads| && t < |programs|
  {
    match s.threads[t]
    case Idle => if programs[t].Hot? then s.tunLock else Some(t)
    case Leaving => None
    case _ => s.tunLock
  }

  function NextRunLock(programs: seq<Program>, s: State, t: Tid): Option<Tid>
    requires t < |s.threads| && t < |programs|
  {
    match s.threads[t]
    case Idle => if programs[t] == Hot(true) then Some(t) else s.runLock
    case Created => Some(t)
    case Unlocking => None
    case Returning => if programs[t] == Hot(true) then None else s.runLock
    case _ => s.runLock
  }

  /** releaseObject: by clear, and by a start without a usable fd. */
  function NextReleased(programs: seq<Program>, s: State, t: Tid): multiset<Tid>
    requires t < |s.threads| && t < |programs|
  {
    match s.threads[t]
    case Clearing(h, ReleaseCallback, _) =>
      if h in s.handlers && s.handlers[h].callback then s.released + multiset{h} else s.released
    case Stopped => if programs[t] == Start(false) then s.released + multiset{t} else s.released
    case _ => s.released
  }

  function NextListenersClosed(s: State, t: Tid): multiset<Tid>
    requires t < |s.threads|
  {
    match s.threads[t]
    case Clearing(h, CloseListener, _) =>
      if h in s.handlers && s.handlers[h].listener then s.listenersClosed + multiset{h} else s.listenersClosed
    case _ => s.listenersClosed
  }

  function Do(programs: seq<Program>, s: State, a: Action): State
    requires Enabled(programs, s, a)
  {
    State(s.threads[a.t := NextPc(programs, s, a)],
          NextHandlers(programs, s, a),
          if s.threads[a.t].Stopped? && programs[a.t] == Start(true) then Some(a.t) else s.current,
          NextHooks(s, a.t),
          NextTunLock(programs, s, a.t),
          NextRunLock(programs, s, a.t),
          NextReleased(programs, s, a.t),
          NextListenersClosed(s, a.t))
  }

  ghost predicate Follows(programs: seq<Program>, s: State, u: State) {
    exists a :: Enabled(programs, s, a) && u == Do(programs, s, a)
  }

  ghost predicate IsRun(programs: seq<Program>, run: seq<State>) {
    && |run| > 0 && run[0] == Init(programs)
    && forall j :: 0 <= j < |run| - 1 ==> Follows(programs, run[j], run[j + 1])
  }

  ghost predicate CanStep(programs: seq<Program>, s: State) {
    exists a :: Enabled(programs, s, a)
  }

  // ----- Who holds what at each statement

  predicate HoldsTunLock(pc: Pc) {
    pc.Stopping? || pc.Clearing? || pc.Stopped? || pc.Created? || pc.Locked? || pc.Hooking?
    || pc.Opening? || pc.Opened? || pc.Unlocking? || pc.Leaving?
  }

  predicate InHotPath(pc: Pc) {
    pc.Calling? || pc.Hooked? || pc.Reached? || pc.Fenced? || pc.Upcalling? || pc.Unfencing? || pc.Returning?
  }

  predicate HoldsRunLock(program: Program, pc: Pc) {
    pc.Locked? || pc.Hooking? || pc.Opening? || pc.Opened? || pc.Unlocking? || (pc.Clearing? && pc.failed)
    || (program == Hot(true) && InHotPath(pc))
  }

  /** The handler whose whole semaphore thread t holds. */
  function Excludes(t: Tid, pc: Pc): Option<Tid> {
    match pc
    case Clearing(h, _, _) => Some(h)
    case Hooking => Some(t)
    case Opening => Some(t)
    case Opened => Some(t)
    case _ => None
  }

  /** The handler of whose semaphore the thread holds one unit. */
  function Shares(pc: Pc): Option<Tid> {
    match pc
    case Fenced(h) => Some(h)
    case Upcalling(h) => Some(h)
    case Unfencing(h) => Some(h)
    case _ => None
  }

  /** A start that has not yet made its handler or given its callback back. */
  predicate BeforeHandler(pc: Pc) {
    pc.Idle? || pc.Stopping? || (pc.Clearing? && !pc.failed) || pc.Stopped?
  }

  /** A start whose handler nobody else can have stopped yet. */
  predicate Fresh(pc: Pc) {
    pc.Created? || pc.Locked? || pc.Hooking? || pc.Opening?
  }

  /** Each thread is at a statement of its own program. */
  ghost predicate ProgramOk(t: Tid, program: Program, pc: Pc) {
    && (InHotPath(pc) ==> program.Hot?)
    && (HoldsTunLock(pc) ==> !program.Hot?)
    && (Fresh(pc) || pc.Opened? || pc.Unlocking? || (pc.Clearing? && pc.failed) ==> program == Start(true))
    && (pc.Clearing? && pc.failed ==> pc.h == t)
  }

  ghost predicate LocksOk(programs: seq<Program>, s: State) {
    && |s.threads| == |programs|
    && (forall t :: 0 <= t < |programs| ==> ProgramOk(t, programs[t], s.threads[t]))
    && (forall t :: 0 <= t < |programs| ==> (HoldsTunLock(s.threads[t]) <==> s.tunLock == Some(t)))
    && (forall t :: 0 <= t < |programs| ==> (HoldsRunLock(programs[t], s.threads[t]) <==> s.runLock == Some(t)))
    && (s.tunLock.Some? ==> s.tunLock.value < |programs|)
    && (s.runLock.Some? ==> s.runLock.value < |programs|)
  }

  ghost predicate FenceOk(s: State) {
    && (forall h :: h in s.handlers ==>
          && (s.handlers[h].exclusive.Some? ==>
                s.handlers[h].exclusive.value < |s.threads| && s.handlers[h].shared == {})
          && |s.handlers[h].shared| <= CAPACITY
          && (forall t :: t in s.handlers[h].shared ==> t < |s.threads|))
    && (forall h, t :: h in s.handlers && 0 <= t < |s.threads| ==>
          && (s.handlers[h].exclusive == Some(t) <==> Excludes(t, s.threads[t]) == Some(h))
          && (t in s.handlers[h].shared <==> Shares(s.threads[t]) == Some(h)))
    && (forall t :: 0 <= t < |s.threads| ==>
          && (Excludes(t, s.threads[t]).Some? ==> Excludes(t, s.threads[t]).value in s.handlers)
          && (Shares(s.threads[t]).Some? ==> Shares(s.threads[t]).value in s.handlers)
          && (s.threads[t].Reached? ==> s.threads[t].h in s.handlers))
  }

  function HandlerOf(s: State, x: Tid): Option<Handler> {
    if x in s.handlers then Some(s.handlers[x]) else None
  }

  /** One start: its handler, callback and listener against what was released and closed. */
  ghost predicate CallbackAt(program: Program, pc: Pc, handler: Option<Handler>, released: nat, closes: nat) {
    match handler
    case Some(h) =>
      && program == Start(true) && !BeforeHandler(pc)
      && (!h.callback ==> h.closed)
      && released == (if h.callback then 0 else 1)
      && closes + (if h.listener then 1 else 0) <= 1
      && (Fresh(pc) ==> h.callback && !h.listener && !h.closed && closes == 0)
    case None =>
      && released == (if program == Start(false) && !BeforeHandler(pc) then 1 else 0) && closes == 0
      && (program == Start(true) ==> BeforeHandler(pc))
  }

  ghost predicate CallbackOk(programs: seq<Program>, s: State, x: Tid)
    requires x < |programs| && x < |s.threads|
  {
    CallbackAt(programs[x], s.threads[x], HandlerOf(s, x), s.released[x], s.listenersClosed[x])
  }

  ghost predicate CallbacksOk(programs: seq<Program>, s: State) {
    && |s.threads| == |programs|
    && (forall h :: h in s.handlers || h in s.released ==> h < |programs|)
    && (forall x :: 0 <= x < |programs| ==> CallbackOk(programs, s, x))
  }

  ghost predicate UpcallsOk(s: State) {
    forall t, h :: 0 <= t < |s.threads| && s.threads[t] == Upcalling(h) ==> h in s.handlers && !s.handlers[h].closed
  }

  /** The hooks are installed exactly for an open current handler. */
  ghost predicate HooksMatch(s: State) {
    s.hooks <==> s.current.Some? && s.current.value in s.handlers
                 && !s.handlers[s.current.value].closed && s.handlers[s.current.value].listener
  }

  /** What the holder of tunLock leaves of that while it works. */
  ghost predicate HookPhase(s: State, t: Tid, pc: Pc) {
    match pc
    case Clearing(h, at, failed) =>
      && s.current == Some(h) && h in s.handlers
      && (match at
          case MarkClosed => failed || HooksMatch(s)
          case RemoveHook => s.handlers[h].closed
          case _ => s.handlers[h].closed && !s.hooks)
    case Stopped => !s.hooks && HooksMatch(s)
    case Created => s.current == Some(t) && !s.hooks
    case Locked => s.current == Some(t) && !s.hooks
    case Hooking => s.current == Some(t) && !s.hooks
    case Opening => s.current == Some(t) && s.hooks
    case _ => HooksMatch(s)
  }

  ghost predicate HooksOk(s: State) {
    && (s.current.Some? ==> s.current.value in s.handlers)
    && (s.hooks ==> s.current.Some?)
    && (forall t :: 0 <= t < |s.threads| && s.threads[t].Hooked? ==> s.current.Some?)
    && (s.tunLock.None? ==> HooksMatch(s))
    && (s.tunLock.Some? && s.tunLock.value < |s.threads| ==> HookPhase(s, s.tunLock.value, s.threads[s.tunLock.value]))
  }

  ghost predicate Invariant(programs: seq<Program>, s: State) {
    LocksOk(programs, s) && FenceOk(s) && CallbacksOk(programs, s) && UpcallsOk(s) && HooksOk(s)
  }

  // ----- Each step keeps the invariant

  /** A thread takes a free lock, keeps the locks as they are, or gives up its own. */
  ghost predicate LockMove(t: Tid, before: Option<Tid>, after: Option<Tid>) {
    after == before || (before == None && after == Some(t)) || (before == Some(t) && after == None)
  }

  lemma StepLockMoves(programs: seq<Program>, s: State, a: Action)
    requires Enabled(programs, s, a)
    requires ProgramOk(a.t, programs[a.t], s.threads[a.t])
    requires HoldsTunLock(s.threads[a.t]) <==> s.tunLock == Some(a.t)
    requires HoldsRunLock(programs[a.t], s.threads[a.t]) <==> s.runLock == Some(a.t)
    ensures var pc := NextPc(programs, s, a);
            && ProgramOk(a.t, programs[a.t], pc)
            && (HoldsTunLock(pc) <==> NextTunLock(programs, s, a.t) == Some(a.t))
            && (HoldsRunLock(programs[a.t], pc) <==> NextRunLock(programs, s, a.t) == Some(a.t))
            && LockMove(a.t, s.tunLock, NextTunLock(programs, s, a.t))
            && LockMove(a.t, s.runLock, NextRunLock(programs, s, a.t))
  {
  }

  lemma StepLocks(programs: seq<Program>, s: State, a: Action)
    requires LocksOk(programs, s) && Enabled(programs, s, a)
    ensures LocksOk(programs, Do(programs, s, a))
  {
    StepLockMoves(programs, s, a);
    LocksKept(programs, s, Do(programs, s, a), a.t);
  }

  lemma LocksKept(programs: seq<Program>, s: State, u: State, t: Tid)
    requires LocksOk(programs, s) && t < |programs|
    requires |u.threads| == |s.threads| && u.threads == s.threads[t := u.threads[t]]
    requires ProgramOk(t, programs[t], u.threads[t])
    requires HoldsTunLock(u.threads[t]) <==> u.tunLock == Some(t)
    requires HoldsRunLock(programs[t], u.threads[t]) <==> u.runLock == Some(t)
    requires LockMove(t, s.tunLock, u.tunLock) && LockMove(t, s.runLock, u.runLock)
    ensures LocksOk(programs, u)
  {
  }

  /** What one handler's semaphore says of one thread. */
  ghost predicate FenceAt(h: Tid, handler: Handler, t: Tid, pc: Pc) {
    && (handler.exclusive == Some(t) <==> Excludes(t, pc) == Some(h))
    && (t in handler.shared <==> Shares(pc) == Some(h))
  }

  lemma FenceKept(s: State, u: State, t: Tid, h: Tid)
    requires FenceOk(s) && t < |s.threads|
    requires |u.threads| == |s.threads| && u.threads == s.threads[t := u.threads[t]]
    requires h in u.handlers && u.handlers == s.handlers[h := u.handlers[h]]
    requires u.handlers[h].exclusive.Some? ==> u.handlers[h].exclusive.value < |u.threads| && u.handlers[h].shared == {}
    requires |u.handlers[h].shared| <= CAPACITY
    requires forall x :: x != t ==>
        (u.handlers[h].exclusive == Some(x) <==> h in s.handlers && s.handlers[h].exclusive == Some(x))
        && (x in u.handlers[h].shared <==> h in s.handlers && x in s.handlers[h].shared)
    requires FenceAt(h, u.handlers[h], t, u.threads[t])
    requires forall g :: g != h && g in s.handlers ==> FenceAt(g, s.handlers[g], t, u.threads[t])
    requires Excludes(t, u.threads[t]).Some? ==> Excludes(t, u.threads[t]).value in u.handlers
    requires Shares(u.threads[t]).Some? ==> Shares(u.threads[t]).value in u.handlers
    requires u.threads[t].Reached? ==> u.threads[t].h in u.handlers
    ensures FenceOk(u)
  {
    forall g, x | g in u.handlers && 0 <= x < |u.threads| ensures FenceAt(g, u.handlers[g], x, u.threads[x]) {
    }
    forall g, x | g in u.handlers && 0 <= x < |u.threads|
      ensures u.handlers[g].exclusive == Some(x) <==> Excludes(x, u.threads[x]) == Some(g)
      ensures x in u.handlers[g].shared <==> Shares(u.threads[x]) == Some(g)
    {
      assert FenceAt(g, u.handlers[g], x, u.threads[x]);
    }
  }

  lemma FenceSame(s: State, u: State, t: Tid)
    requires FenceOk(s) && t < |s.threads|
    requires |u.threads| == |s.threads| && u.threads == s.threads[t := u.threads[t]] && u.handlers == s.handlers
    requires Excludes(t, u.threads[t]) == Excludes(t, s.threads[t]) && Shares(u.threads[t]) == Shares(s.threads[t])
    requires u.threads[t].Reached? ==> u.threads[t].h in u.handlers
    ensures FenceOk(u)
  {
  }

  /** What the statement does to the semaphore it touches, seen from that semaphore alone. */
  lemma StepFenceMoves(programs: seq<Program>, s: State, a: Action, h: Tid)
    requires Enabled(programs, s, a) && Writes(programs, s, a.t) == Some(h)
    requires ProgramOk(a.t, programs[a.t], s.threads[a.t])
    requires s.threads[a.t].Stopped? <==> h !in s.handlers
    requires h in s.handlers ==> FenceAt(h, s.handlers[h], a.t, s.threads[a.t])
    requires h in s.handlers && s.handlers[h].exclusive.Some? ==> s.handlers[h].shared == {}
    requires h in s.handlers ==> |s.handlers[h].shared| <= CAPACITY
    ensures var handler, pc := NextHandler(programs, s, a), NextPc(programs, s, a);
            && FenceAt(h, handler, a.t, pc)
            && (handler.exclusive.Some? ==> handler.shared == {})
            && |handler.shared| <= CAPACITY
            && (forall x :: x != a.t ==>
                  (handler.exclusive == Some(x) <==> h in s.handlers && s.handlers[h].exclusive == Some(x))
                  && (x in handler.shared <==> h in s.handlers && x in s.handlers[h].shared))
            && (Excludes(a.t, pc).Some? ==> Excludes(a.t, pc) == Some(h))
            && (Shares(pc).Some? ==> Shares(pc) == Some(h))
            && (Excludes(a.t, s.threads[a.t]).Some? ==> Excludes(a.t, s.threads[a.t]) == Some(h))
            && (Shares(s.threads[a.t]).Some? ==> Shares(s.threads[a.t]) == Some(h))
            && !pc.Reached?
  {
    if h in s.handlers && Weight(s.handlers[h]) == 0 {
      assert s.handlers[h].shared == {};
    }
  }

  lemma StepFenceStays(programs: seq<Program>, s: State, a: Action)
    requires Enabled(programs, s, a) && Writes(programs, s, a.t) == None
    requires s.current.Some? ==> s.current.value in s.handlers
    ensures var pc := NextPc(programs, s, a);
            && Excludes(a.t, pc) == Excludes(a.t, s.threads[a.t]) && Shares(pc) == Shares(s.threads[a.t])
            && (pc.Reached? ==> pc.h in s.handlers)
  {
  }

  /** Every written handler exists already, but for the one a start makes. */
  lemma WritesExisting(programs: seq<Program>, s: State, a: Action)
    requires CallbacksOk(programs, s) && Enabled(programs, s, a) && Writes(programs, s, a.t).Some?
    requires FenceOk(s) && ProgramOk(a.t, programs[a.t], s.threads[a.t])
    ensures s.threads[a.t].Stopped? <==> Writes(programs, s, a.t).value !in s.handlers
  {
    assert CallbackOk(programs, s, a.t);
  }

  lemma StepFence(programs: seq<Program>, s: State, a: Action)
    requires Invariant(programs, s) && Enabled(programs, s, a)
    ensures FenceOk(Do(programs, s, a))
  {
    assert ProgramOk(a.t, programs[a.t], s.threads[a.t]);
    if Writes(programs, s, a.t) == None {
      StepFenceStays(programs, s, a);
      FenceSame(s, Do(programs, s, a), a.t);
    } else {
      StepFenceWrites(programs, s, a, Writes(programs, s, a.t).value);
    }
  }

  lemma StepFenceWrites(programs: seq<Program>, s: State, a: Action, h: Tid)
    requires FenceOk(s) && CallbacksOk(programs, s) && Enabled(programs, s, a) && Writes(programs, s, a.t) == Some(h)
    requires ProgramOk(a.t, programs[a.t], s.threads[a.t])
    ensures FenceOk(Do(programs, s, a))
  {
    WritesExisting(programs, s, a);
    assert h in s.handlers ==> FenceAt(h, s.handlers[h], a.t, s.threads[a.t]);
    StepFenceMoves(programs, s, a, h);
    var u := Do(programs, s, a);
    assert u.threads[a.t] == NextPc(programs, s, a) && u.handlers[h] == NextHandler(programs, s, a);
    forall g | g != h && g in s.handlers ensures FenceAt(g, s.handlers[g], a.t, u.threads[a.t]) {
      assert FenceAt(g, s.handlers[g], a.t, s.threads[a.t]);
    }
    FenceKept(s, u, a.t, h);
  }

  // ----- Callbacks

  /** The start x, when thread a.t steps: its own step, or one that writes its handler. */
  lemma StepCallbackAt(programs: seq<Program>, s: State, a: Action, x: Tid)
    requires Enabled(programs, s, a) && x < |s.threads| && x < |programs|
    requires x == a.t || Writes(programs, s, a.t) == Some(x)
    requires ProgramOk(a.t, programs[a.t], s.threads[a.t])
    requires CallbackOk(programs, s, x)
    requires Writes(programs, s, a.t).Some? ==>
        (s.threads[a.t].Stopped? <==> Writes(programs, s, a.t).value !in s.handlers)
    requires x != a.t && HoldsTunLock(s.threads[a.t]) ==> !Fresh(s.threads[x])
    requires s.threads[a.t].Clearing? && s.threads[a.t].at != MarkClosed ==> s.handlers[s.threads[a.t].h].closed
    ensures CallbackOk(programs, Do(programs, s, a), x)
  {
  }

  lemma StepCallbacks(programs: seq<Program>, s: State, a: Action)
    requires Invariant(programs, s) && Enabled(programs, s, a)
    ensures CallbacksOk(programs, Do(programs, s, a))
  {
    var u := Do(programs, s, a);
    assert ProgramOk(a.t, programs[a.t], s.threads[a.t]);
    if Writes(programs, s, a.t).Some? {
      WritesExisting(programs, s, a);
    }
    forall x | 0 <= x < |programs| ensures CallbackOk(programs, u, x) {
      assert CallbackOk(programs, s, x);
      if x == a.t || Writes(programs, s, a.t) == Some(x) {
        StepCallbackAt(programs, s, a, x);
      } else {
        OtherCallbackStays(programs, s, a, x);
      }
    }
  }

  lemma OtherCallbackStays(programs: seq<Program>, s: State, a: Action, x: Tid)
    requires Enabled(programs, s, a) && x < |s.threads| && x < |programs|
    requires x != a.t && Writes(programs, s, a.t) != Some(x) && CallbackOk(programs, s, x)
    ensures CallbackOk(programs, Do(programs, s, a), x)
  {
  }

  lemma StepUpcalls(programs: seq<Program>, s: State, a: Action)
    requires Invariant(programs, s) && Enabled(programs, s, a)
    ensures UpcallsOk(Do(programs, s, a))
  {
    var u := Do(programs, s, a);
    if Writes(programs, s, a.t).Some? {
      WritesExisting(programs, s, a);
    }
    forall t, h | 0 <= t < |u.threads| && u.threads[t] == Upcalling(h)
      ensures h in u.handlers && !u.handlers[h].closed
    {
      if t != a.t {
        assert s.threads[t] == Upcalling(h);
        assert t in s.handlers[h].shared;
      }
    }
  }

  // ----- Hooks

  /** For what the hooks mean, the handlers differ at most in who holds their semaphores. */
  ghost predicate SameHooks(s: State, u: State) {
    && u.current == s.current && u.hooks == s.hooks && u.handlers.Keys == s.handlers.Keys
    && forall h :: h in s.handlers ==>
         u.handlers[h].closed == s.handlers[h].closed && u.handlers[h].listener == s.handlers[h].listener
  }

  lemma HotStepHooks(programs: seq<Program>, s: State, a: Action)
    requires Invariant(programs, s) && Enabled(programs, s, a) && programs[a.t].Hot?
    ensures HooksOk(Do(programs, s, a))
  {
    var u := Do(programs, s, a);
    assert ProgramOk(a.t, programs[a.t], s.threads[a.t]);
    if Writes(programs, s, a.t).Some? {
      WritesExisting(programs, s, a);
    }
    assert SameHooks(s, u);
    assert u.tunLock == s.tunLock != Some(a.t);
  }

  /** What the holder of tunLock, or the thread taking it, leaves of the hooks. */
  lemma HolderStepPhase(programs: seq<Program>, s: State, a: Action)
    requires HooksOk(s) && Enabled(programs, s, a) && !programs[a.t].Hot?
    requires ProgramOk(a.t, programs[a.t], s.threads[a.t])
    requires HoldsTunLock(s.threads[a.t]) ==> s.tunLock == Some(a.t)
    requires s.threads[a.t].Stopped? ==> a.t !in s.handlers
    requires s.threads[a.t].Opening? ==> a.t in s.handlers && !s.handlers[a.t].closed
    ensures var u := Do(programs, s, a);
            && (u.current.Some? ==> u.current.value in u.handlers) && (u.hooks ==> u.current.Some?)
            && (s.current.Some? ==> u.current.Some?)
            && (s.threads[a.t].Idle? || HoldsTunLock(s.threads[a.t]) ==> HookPhase(u, a.t, NextPc(programs, s, a)))
  {
  }

  lemma StepHooks(programs: seq<Program>, s: State, a: Action)
    requires Invariant(programs, s) && Enabled(programs, s, a)
    ensures HooksOk(Do(programs, s, a))
  {
    assert ProgramOk(a.t, programs[a.t], s.threads[a.t]);
    if programs[a.t].Hot? {
      HotStepHooks(programs, s, a);
    } else {
      assert CallbackOk(programs, s, a.t);
      HolderStepPhase(programs, s, a);
      var u := Do(programs, s, a);
      StepLocks(programs, s, a);
    }
  }

  lemma InitInvariant(programs: seq<Program>)
    ensures Invariant(programs, Init(programs))
  {
  }

  lemma StepInvariant(programs: seq<Program>, s: State, a: Action)
    requires Invariant(programs, s) && Enabled(programs, s, a)
    ensures Invariant(programs, Do(programs, s, a))
  {
    StepLocks(programs, s, a);
    StepFence(programs, s, a);
    StepCallbacks(programs, s, a);
    StepUpcalls(programs, s, a);
    StepHooks(programs, s, a);
  }

  lemma {:induction false} RunInvariant(programs: seq<Program>, run: seq<State>)
    requires IsRun(programs, run)
    ensures Invariant(programs, run[|run| - 1])
  {
    if |run| == 1 {
      InitInvariant(programs);
    } else {
      RunInvariant(programs, run[..|run| - 1]);
      assert Follows(programs, run[|run| - 2], run[|run| - 1]);
      var a :| Enabled(programs, run[|run| - 2], a) && run[|run| - 1] == Do(programs, run[|run| - 2], a);
      StepInvariant(programs, run[|run| - 2], a);
    }
  }

  // ----- What holds over whole runs

  /** No upcall runs on a released callback, whatever hook it came through. */
  lemma UpcallsOnLiveCallbacks(programs: seq<Program>, run: seq<State>, t: Tid, h: Tid)
    requires IsRun(programs, run)
    requires var s := run[|run| - 1]; t < |s.threads| && s.threads[t] == Upcalling(h)
    ensures var s := run[|run| - 1]; h in s.handlers && s.handlers[h].callback && s.released[h] == 0
  {
    RunInvariant(programs, run);
    var s := run[|run| - 1];
    assert h in s.handlers;
    assert CallbackOk(programs, s, h);
  }

  /** A hot path that got hold of a hook, however stale, finds a handler to call. */
  lemma HookFindsHandler(programs: seq<Program>, run: seq<State>, t: Tid)
    requires IsRun(programs, run)
    requires t < |run[|run| - 1].threads| && run[|run| - 1].threads[t] == Hooked
    ensures var s := run[|run| - 1]; s.current.Some? && s.current.value in s.handlers
  {
    RunInvariant(programs, run);
  }

  /** At most CAPACITY upcalls use one callback at a time. */
  lemma UpcallsWithinCapacity(programs: seq<Program>, run: seq<State>, h: Tid)
    requires IsRun(programs, run)
    ensures var s := run[|run| - 1];
            |set t | 0 <= t < |s.threads| && s.threads[t] == Upcalling(h)| <= CAPACITY
  {
    RunInvariant(programs, run);
    var s := run[|run| - 1];
    var calling := set t | 0 <= t < |s.threads| && s.threads[t] == Upcalling(h);
    if calling != {} {
      var t :| t in calling;
      assert h in s.handlers;
      forall x | x in calling ensures x in s.handlers[h].shared {
        assert Shares(s.threads[x]) == Some(h);
      }
      SubsetIsSmaller(calling, s.handlers[h].shared);
    }
  }

  lemma {:induction false} SubsetIsSmaller(a: set<Tid>, b: set<Tid>)
    requires a <= b
    ensures |a| <= |b|
  {
    if a != {} {
      var x :| x in a;
      SubsetIsSmaller(a - {x}, b - {x});
    }
  }

  /** Each callback is released, and each listener closed, at most once; an
      unreleased callback is held by a start under way or by a handler. */
  lemma ReleasedOnce(programs: seq<Program>, run: seq<State>, x: Tid)
    requires IsRun(programs, run) && x < |programs|
    ensures var s := run[|run| - 1];
            |s.threads| == |programs|
            && s.released[x] <= 1 && s.listenersClosed[x] <= 1
            && (programs[x].Start? ==>
                  (s.released[x] == 0 <==> BeforeHandler(s.threads[x]) || (x in s.handlers && s.handlers[x].callback)))
            && (!programs[x].Start? ==> s.released[x] == 0)
  {
    RunInvariant(programs, run);
    assert CallbackOk(programs, run[|run| - 1], x);
  }

  /** Whenever tunLock is free the hooks are installed exactly if the current
      handler exists, is not closed and has a listener. */
  lemma HooksWhenUnlocked(programs: seq<Program>, run: seq<State>)
    requires IsRun(programs, run) && run[|run| - 1].tunLock == None
    ensures HooksMatch(run[|run| - 1])
  {
    RunInvariant(programs, run);
  }

  lemma StepStaysClosed(programs: seq<Program>, s: State, a: Action, h: Tid)
    requires Invariant(programs, s) && Enabled(programs, s, a)
    requires h in s.handlers && s.handlers[h].closed
    ensures h in Do(programs, s, a).handlers && Do(programs, s, a).handlers[h].closed
  {
    if Writes(programs, s, a.t).Some? {
      assert ProgramOk(a.t, programs[a.t], s.threads[a.t]);
      WritesExisting(programs, s, a);
    }
  }

  lemma LastStepStaysClosed(programs: seq<Program>, run: seq<State>, h: Tid)
    requires IsRun(programs, run) && |run| > 1
    requires h in run[|run| - 2].handlers && run[|run| - 2].handlers[h].closed
    ensures h in run[|run| - 1].handlers && run[|run| - 1].handlers[h].closed
  {
    RunInvariant(programs, run[..|run| - 1]);
    assert Follows(programs, run[|run| - 2], run[|run| - 1]);
    var a :| Enabled(programs, run[|run| - 2], a) && run[|run| - 1] == Do(programs, run[|run| - 2], a);
    StepStaysClosed(programs, run[|run| - 2], a, h);
  }

  lemma {:induction false} ClosedForever(programs: seq<Program>, run: seq<State>, j: nat, h: Tid)
    requires IsRun(programs, run) && j < |run|
    requires h in run[j].handlers && run[j].handlers[h].closed
    ensures h in run[|run| - 1].handlers && run[|run| - 1].handlers[h].closed
    decreases |run|
  {
    if j < |run| - 1 {
      ClosedForever(programs, run[..|run| - 1], j, h);
      LastStepStaysClosed(programs, run, h);
    }
  }

  /** Once a handler is closed, no upcall on it is in flight, then or ever after. */
  lemma NoUpcallAfterClose(programs: seq<Program>, run: seq<State>, j: nat, t: Tid, h: Tid)
    requires IsRun(programs, run) && j < |run|
    requires h in run[j].handlers && run[j].handlers[h].closed
    ensures t < |run[|run| - 1].threads| ==> run[|run| - 1].threads[t] != Upcalling(h)
  {
    ClosedForever(programs, run, j, h);
    RunInvariant(programs, run);
  }

  /** tunLock is taken holding nothing, runLock holding no semaphore, and a
      semaphore holding no other: the locks are always taken in one order. */
  lemma LocksTakenInOrder(programs: seq<Program>, run: seq<State>, a: Action)
    requires IsRun(programs, run) && Enabled(programs, run[|run| - 1], a)
    ensures var s := run[|run| - 1];
            var u := Do(programs, s, a);
            && (u.tunLock == Some(a.t) != s.tunLock ==>
                  s.runLock != Some(a.t) && Excludes(a.t, s.threads[a.t]) == None && Shares(s.threads[a.t]) == None)
            && (u.runLock == Some(a.t) != s.runLock ==>
                  Excludes(a.t, s.threads[a.t]) == None && Shares(s.threads[a.t]) == None)
            && (Excludes(a.t, u.threads[a.t]).Some? && Excludes(a.t, s.threads[a.t]) == None ==>
                  Shares(s.threads[a.t]) == None)
            && (Shares(u.threads[a.t]).Some? && Shares(s.threads[a.t]) == None ==>
                  Excludes(a.t, s.threads[a.t]) == None)
  {
    RunInvariant(programs, run);
    var s := run[|run| - 1];
    assert ProgramOk(a.t, programs[a.t], s.threads[a.t]);
  }

  // ----- No deadlock

  predicate Waits(pc: Pc) {
    pc.Idle? || pc.Stopping? || pc.Created? || pc.Locked? || pc.Reached? || pc.Finished?
  }

  /** A thread that is not waiting for a lock can go on. */
  lemma NotWaitingGoesOn(programs: seq<Program>, s: State, t: Tid)
    requires Invariant(programs, s) && t < |s.threads| && !Waits(s.threads[t])
    ensures CanStep(programs, s)
  {
    assert ProgramOk(t, programs[t], s.threads[t]);
    assert CallbackOk(programs, s, t);
    assert Enabled(programs, s, Action(t, true));
  }

  /** If every thread is waiting, every semaphore is free. */
  lemma WaitingFreesSemaphore(programs: seq<Program>, s: State, h: Tid)
    requires Invariant(programs, s) && h in s.handlers
    requires forall t :: 0 <= t < |s.threads| ==> Waits(s.threads[t])
    ensures Weight(s.handlers[h]) == 0
  {
    forall t | 0 <= t < |s.threads| ensures t !in s.handlers[h].shared && s.handlers[h].exclusive != Some(t) {
      assert Shares(s.threads[t]) == None && Excludes(t, s.threads[t]) == None;
    }
    forall t | t in s.handlers[h].shared ensures t < |s.threads| {}
    assert s.handlers[h].shared == {};
  }

  /** In every reachable state with an unfinished thread, some thread can go on. */
  lemma NeverDeadlocked(programs: seq<Program>, run: seq<State>, t: Tid)
    requires IsRun(programs, run)
    requires t < |run[|run| - 1].threads| && run[|run| - 1].threads[t] != Finished
    ensures CanStep(programs, run[|run| - 1])
  {
    RunInvariant(programs, run);
    var s := run[|run| - 1];
    if x :| 0 <= x < |s.threads| && !Waits(s.threads[x]) {
      NotWaitingGoesOn(programs, s, x);
      return;
    }
    forall h | h in s.handlers ensures Weight(s.handlers[h]) == 0 {
      WaitingFreesSemaphore(programs, s, h);
    }
    var holder := if s.runLock.Some? then s.runLock.value else if s.tunLock.Some? then s.tunLock.value else t;
    assert ProgramOk(holder, programs[holder], s.threads[holder]);
    assert CallbackOk(programs, s, holder);
    assert Enabled(programs, s, Action(holder, true));
  }

  // ----- Every run ends

  function ClearRank(at: Clear): nat {
    match at
    case MarkClosed => 5
    case RemoveHook => 4
    case CloseListener => 3
    case ReleaseCallback => 2
    case ReleaseAll => 1
  }

  /** How many statements a thread has at most ahead of it. */
  function Rank(pc: Pc): nat {
    match pc
    case Idle => 19
    case Stopping => 18
    case Clearing(_, at, failed) => (if failed then 2 else 12) + ClearRank(at)
    case Stopped => 12
    case Created => 11
    case Locked => 10
    case Hooking => 9
    case Opening => 8
    case Opened => 3
    case Unlocking => 2
    case Leaving => 1
    case Calling => 7
    case Hooked => 6
    case Reached(_) => 5
    case Fenced(_) => 4
    case Upcalling(_) => 3
    case Unfencing(_) => 2
    case Returning => 1
    case Finished => 0
  }

  ghost function Ranks(threads: seq<Pc>): nat {
    if threads == [] then 0 else Rank(threads[0]) + Ranks(threads[1..])
  }

  lemma {:induction false} RanksChange(threads: seq<Pc>, t: Tid, pc: Pc)
    requires t < |threads|
    ensures Ranks(threads[t := pc]) + Rank(threads[t]) == Ranks(threads) + Rank(pc)
  {
    if t == 0 {
      assert threads[t := pc][1..] == threads[1..];
    } else {
      RanksChange(threads[1..], t - 1, pc);
      assert threads[t := pc][1..] == threads[1..][t - 1 := pc];
    }
  }

  lemma StepRank(programs: seq<Program>, s: State, a: Action)
    requires Enabled(programs, s, a)
    ensures Rank(NextPc(programs, s, a)) < Rank(s.threads[a.t])
  {
  }

  /** Every run is at most as long as the statements its threads have: with
      NeverDeadlocked, every start, stop and hot path finishes. */
  lemma {:induction false} RunIsBounded(programs: seq<Program>, run: seq<State>)
    requires IsRun(programs, run)
    ensures |run| - 1 + Ranks(run[|run| - 1].threads) <= Ranks(Init(programs).threads)
  {
    if |run| > 1 {
      RunIsBounded(programs, run[..|run| - 1]);
      var s := run[|run| - 2];
      assert Follows(programs, s, run[|run| - 1]);
      var a :| Enabled(programs, s, a) && run[|run| - 1] == Do(programs, s, a);
      StepRank(programs, s, a);
      RanksChange(s.threads, a.t, NextPc(programs, s, a));
      assert run[|run| - 1].threads == s.threads[a.t := NextPc(programs, s, a)];
    }
  }
}
