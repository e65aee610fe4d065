/** Who owns each JNI global reference: actions, setups and event listeners as
    interleaved steps, and the balance of references created and released. */
module RefLedger {

  import opened Options
  import TunFence
  import opened Actions

  /** Calls are numbered; a call that brings a callback names the reference to it. */
  type Ref = nat

  /** invokeAction, quickSetup, setEventListener with or without a listener, sendMessage. */
  datatype Call =
    | Invoke(parses: bool, name: string)
    | QuickSetup
    | Listen(some: bool)
    | Emit(marshals: bool)

  datatype Pc =
    | Idle
    | Entered                              // the native call has made its reference
    | Handling                             // the goroutine runs the action or the setup
    | Replying                             // the result is handed to the callback
    | Releasing                            // the callback is about to be released
    | Swapping                             // setEventListener ahead of its lock
    | Writing                              // write lock held
    | Swapped(was: Option<Ref>)            // the new listener is in, write lock held
    | ReleasingOld(ref: Ref)
    | Reading                              // sendMessage with the read lock
    | Delivering(ref: Ref)                 // the message is handed to the listener
    | Unlocking
    | Done

  datatype State = State(
    pcs: seq<Pc>,
    created: set<Ref>,
    released: multiset<Ref>,
    listener: Option<Ref>,
    writer: Option<nat>,
    readers: set<nat>)

  function Init(calls: seq<Call>): State {
    State(seq(|calls|, _ => Idle), {}, multiset{}, None, None, {})
  }

  // ----- Steps

  predicate Enabled(calls: seq<Call>, s: State, t: nat) {
    && t < |calls| && t < |s.pcs|
    && match s.pcs[t]
       case Idle => calls[t].Emit? ==> s.writer.None?
       case Swapping => s.writer.None? && s.readers == {}
       case Done => false
       case _ => true
  }

  predicate Owns(call: Call) {
    call.Invoke? || call.QuickSetup? || call == Listen(true)
  }

  function NextPc(calls: seq<Call>, s: State, t: nat): Pc
    requires Enabled(calls, s, t)
  {
    match s.pcs[t]
    case Idle =>
      (match calls[t]
       case Invoke(_, _) => Entered
       case QuickSetup => Handling
       case Listen(_) => Swapping
       case Emit(_) => Reading)
    case Entered => if calls[t].Invoke? && calls[t].parses then Handling else Done
    case Handling => Replying
    case Replying => if calls[t].Invoke? && calls[t].name == MESSAGE then Done else Releasing
    case Releasing => Done
    case Swapping => Writing
    case Writing => Swapped(s.listener)
    case Swapped(was) => if was.Some? then ReleasingOld(was.value) else Done
    case ReleasingOld(_) => Done
    case Reading =>
      if s.listener.Some? && calls[t].Emit? && calls[t].marshals then Delivering(s.listener.value) else Unlocking
    case Delivering(_) => Unlocking
    case Unlocking => Done
    case Done => Done
  }

  function NextListener(calls: seq<Call>, s: State, t: nat): Option<Ref>
    requires Enabled(calls, s, t)
  {
    if s.pcs[t].Writing? then (if calls[t] == Listen(true) then Some(t) else None) else s.listener
  }

  function NextReleased(calls: seq<Call>, s: State, t: nat): multiset<Ref>
    requires Enabled(calls, s, t)
  {
    match s.pcs[t]
    case Releasing => s.released + multiset{t}
    case ReleasingOld(ref) => s.released + multiset{ref}
    case _ => s.released
  }

  function NextWriter(s: State, t: nat): Option<nat>
    requires t < |s.pcs|
  {
    match s.pcs[t]
    case Swapping => Some(t)
    case Swapped(_) => None
    case _ => s.writer
  }

  function NextReaders(calls: seq<Call>, s: State, t: nat): set<nat>
    requires Enabled(calls, s, t)
  {
    match s.pcs[t]
    case Idle => if calls[t].Emit? then s.readers + {t} else s.readers
    case Unlocking => s.readers - {t}
    case _ => s.readers
  }

  function Do(calls: seq<Call>, s: State, t: nat): State
    requires Enabled(calls, s, t)
  {
    State(s.pcs[t := NextPc(calls, s, t)],
          if s.pcs[t].Idle? && Owns(calls[t]) then s.created + {t} else s.created,
          NextReleased(calls, s, t),
          NextListener(calls, s, t),
          NextWriter(s, t),
          NextReaders(calls, s, t))
  }

  ghost predicate Follows(calls: seq<Call>, s: State, u: State) {
    exists t :: Enabled(calls, s, t) && u == Do(calls, s, t)
  }

  ghost predicate IsRun(calls: seq<Call>, run: seq<State>) {
    && |run| > 0 && run[0] == Init(calls)
    && forall j :: 0 <= j < |run| - 1 ==> Follows(calls, run[j], run[j + 1])
  }

  // ----- Where a live reference can be

  predicate PendingPc(pc: Pc) {
    pc.Entered? || pc.Handling? || pc.Replying? || pc.Releasing?
  }

  ghost function PendingActions(calls: seq<Call>, s: State): set<Ref> {
    set t | 0 <= t < |calls| && t < |s.pcs| && calls[t].Invoke? && PendingPc(s.pcs[t])
  }

  ghost function PendingSetups(calls: seq<Call>, s: State): set<Ref> {
    set t | 0 <= t < |calls| && t < |s.pcs| && calls[t].QuickSetup? && PendingPc(s.pcs[t])
  }

  /** A listener that setEventListener has been given and has not put in place. */
  ghost function ComingListeners(calls: seq<Call>, s: State): set<Ref> {
    set t | 0 <= t < |calls| && t < |s.pcs| && calls[t] == Listen(true) && (s.pcs[t].Swapping? || s.pcs[t].Writing?)
  }

  ghost function CurrentListener(s: State): set<Ref> {
    if s.listener.Some? then {s.listener.value} else {}
  }

  function Outgoing(pc: Pc): Option<Ref> {
    match pc
    case Swapped(was) => was
    case ReleasingOld(ref) => Some(ref)
    case _ => None
  }

  /** A listener that was swapped out and is not released yet. */
  ghost function OutgoingListeners(s: State): set<Ref> {
    set t | 0 <= t < |s.pcs| && Outgoing(s.pcs[t]).Some? :: Outgoing(s.pcs[t]).value
  }

  ghost predicate IsOutgoing(s: State, ref: Ref) {
    exists t :: 0 <= t < |s.pcs| && Outgoing(s.pcs[t]) == Some(ref)
  }

  /** A callback nobody will release: its document did not parse, or its method is "message". */
  predicate Leaks(call: Call) {
    call.Invoke? && (!call.parses || call.name == MESSAGE)
  }

  ghost function Leaked(calls: seq<Call>, s: State): set<Ref> {
    set t | 0 <= t < |calls| && t < |s.pcs| && Leaks(calls[t]) && s.pcs[t].Done?
  }

  ghost function Live(s: State): set<Ref> {
    set t | t in s.created && s.released[t] == 0
  }

  // ----- The invariant

  ghost predicate CallOk(call: Call, pc: Pc) {
    match pc
    case Idle => true
    case Done => true
    case Entered => call.Invoke?
    case Handling => (call.Invoke? && call.parses) || call.QuickSetup?
    case Replying => (call.Invoke? && call.parses) || call.QuickSetup?
    case Releasing => (call.Invoke? && !Leaks(call)) || call.QuickSetup?
    case Swapping => call.Listen?
    case Writing => call.Listen?
    case Swapped(_) => call.Listen?
    case ReleasingOld(_) => call.Listen?
    case Reading => call.Emit?
    case Delivering(_) => call == Emit(true)
    case Unlocking => call.Emit?
  }

  /** Where reference t is, told from its own call, the listener and the outgoing ones. */
  ghost predicate Somewhere(calls: seq<Call>, s: State, t: Ref)
    requires t < |calls| && t < |s.pcs|
  {
    || ((calls[t].Invoke? || calls[t].QuickSetup?) && PendingPc(s.pcs[t]))
    || (calls[t] == Listen(true) && (s.pcs[t].Swapping? || s.pcs[t].Writing?))
    || s.listener == Some(t)
    || IsOutgoing(s, t)
    || (Leaks(calls[t]) && s.pcs[t].Done?)
  }

  ghost predicate LockOk(s: State) {
    && (forall t :: 0 <= t < |s.pcs| ==> (s.writer == Some(t) <==> s.pcs[t].Writing? || s.pcs[t].Swapped?))
    && (forall t :: 0 <= t < |s.pcs| ==>
          (t in s.readers <==> s.pcs[t].Reading? || s.pcs[t].Delivering? || s.pcs[t].Unlocking?))
    && (forall t :: t in s.readers ==> t < |s.pcs|)
    && (s.writer.Some? ==> s.readers == {} && s.writer.value < |s.pcs|)
    && (forall t :: 0 <= t < |s.pcs| && s.pcs[t].Delivering? ==> s.listener == Some(s.pcs[t].ref))
  }

  ghost predicate RefOk(calls: seq<Call>, s: State, t: Ref)
    requires t < |calls| && t < |s.pcs|
  {
    && CallOk(calls[t], s.pcs[t])
    && (t in s.created <==> Owns(calls[t]) && !s.pcs[t].Idle?)
    && s.released[t] == (if t in s.created && !Somewhere(calls, s, t) then 1 else 0)
    && (s.listener == Some(t) || IsOutgoing(s, t) ==>
          calls[t] == Listen(true) && !s.pcs[t].Idle? && !s.pcs[t].Swapping? && !s.pcs[t].Writing?)
  }

  ghost predicate OutgoingOk(s: State) {
    && (forall t, x :: 0 <= t < |s.pcs| && 0 <= x < |s.pcs| && t != x && Outgoing(s.pcs[t]).Some? ==>
          Outgoing(s.pcs[t]) != Outgoing(s.pcs[x]))
    && (forall t :: 0 <= t < |s.pcs| && Outgoing(s.pcs[t]).Some? ==>
          Outgoing(s.pcs[t]) != s.listener && Outgoing(s.pcs[t]).value < |s.pcs|)
    && (s.listener.Some? ==> s.listener.value < |s.pcs|)
  }

  ghost predicate Invariant(calls: seq<Call>, s: State) {
    && |s.pcs| == |calls|
    && LockOk(s) && OutgoingOk(s)
    && (forall t :: t in s.created || t in s.released ==> t < |calls|)
    && (forall t :: 0 <= t < |calls| ==> RefOk(calls, s, t))
  }

  lemma StepLocks(calls: seq<Call>, s: State, t: nat)
    requires Invariant(calls, s) && Enabled(calls, s, t)
    ensures LockOk(Do(calls, s, t))
  {
    assert RefOk(calls, s, t);
  }

  lemma StepOutgoing(calls: seq<Call>, s: State, t: nat)
    requires Invariant(calls, s) && Enabled(calls, s, t)
    ensures OutgoingOk(Do(calls, s, t))
  {
    assert RefOk(calls, s, t);
    OutgoingStep(calls, s, t);
    OutgoingKept(s, Do(calls, s, t), t);
  }

  /** What a step puts out or in: it keeps what it has out, or swaps out the listener, or puts in its own. */
  lemma OutgoingStep(calls: seq<Call>, s: State, t: nat)
    requires Enabled(calls, s, t) && |s.pcs| == |calls| && OutgoingOk(s)
    requires s.listener != Some(t) || !s.pcs[t].Writing?
    ensures var u := Do(calls, s, t);
            var out := Outgoing(u.pcs[t]);
            && (out == None || out == Outgoing(s.pcs[t]) || (Outgoing(s.pcs[t]) == None && out == s.listener))
            && (u.listener == s.listener || u.listener == None || (s.pcs[t].Writing? && u.listener == Some(t)))
            && (out.Some? ==> out != u.listener)
  {
  }

  lemma OutgoingKept(s: State, u: State, t: nat)
    requires OutgoingOk(s) && t < |s.pcs|
    requires |u.pcs| == |s.pcs| && forall x :: 0 <= x < |s.pcs| && x != t ==> u.pcs[x] == s.pcs[x]
    requires var out := Outgoing(u.pcs[t]);
             && (out == None || out == Outgoing(s.pcs[t]) || (Outgoing(s.pcs[t]) == None && out == s.listener))
             && (out.Some? ==> out != u.listener)
    requires u.listener == s.listener || u.listener == None || (u.listener == Some(t) && !IsOutgoing(s, t))
    ensures OutgoingOk(u)
  {
  }

  /** How the outgoing listeners change: the swap adds the listener there was, the release takes it away. */
  lemma OutgoingMoves(calls: seq<Call>, s: State, t: nat, x: Ref)
    requires |s.pcs| == |calls| && OutgoingOk(s) && Enabled(calls, s, t)
    ensures IsOutgoing(Do(calls, s, t), x)
        <==> (IsOutgoing(s, x) && s.pcs[t] != ReleasingOld(x)) || (s.pcs[t].Writing? && s.listener == Some(x))
  {
    var u := Do(calls, s, t);
    if IsOutgoing(s, x) {
      var y :| 0 <= y < |s.pcs| && Outgoing(s.pcs[y]) == Some(x);
      if y != t || s.pcs[t].Swapped? {
        assert Outgoing(u.pcs[y]) == Some(x);
      }
    }
    if IsOutgoing(u, x) {
      var y :| 0 <= y < |u.pcs| && Outgoing(u.pcs[y]) == Some(x);
      if y != t {
        assert Outgoing(s.pcs[y]) == Some(x);
      } else if s.pcs[t].Swapped? {
        assert Outgoing(s.pcs[t]) == Some(x);
      }
    }
    if s.pcs[t].Writing? {
      assert Outgoing(u.pcs[t]) == s.listener;
    }
  }

  lemma StepRef(calls: seq<Call>, s: State, t: nat, x: Ref)
    requires |s.pcs| == |calls| && OutgoingOk(s) && Enabled(calls, s, t) && x < |calls|
    requires RefOk(calls, s, t) && RefOk(calls, s, x)
    ensures RefOk(calls, Do(calls, s, t), x)
  {
    OutgoingMoves(calls, s, t, x);
    if s.pcs[t] == ReleasingOld(x) {
      assert Outgoing(s.pcs[t]) == Some(x);
    }
  }

  lemma StepInvariant(calls: seq<Call>, s: State, t: nat)
    requires Invariant(calls, s) && Enabled(calls, s, t)
    ensures Invariant(calls, Do(calls, s, t))
  {
    StepLocks(calls, s, t);
    StepOutgoing(calls, s, t);
    forall x | 0 <= x < |calls| ensures RefOk(calls, Do(calls, s, t), x) {
      StepRef(calls, s, t, x);
    }
    assert s.pcs[t].ReleasingOld? ==> Outgoing(s.pcs[t]) == Some(s.pcs[t].ref);
  }

  lemma InitInvariant(calls: seq<Call>)
    ensures Invariant(calls, Init(calls))
  {
    var s := Init(calls);
    forall t | 0 <= t < |calls| ensures RefOk(calls, s, t) {
      assert !IsOutgoing(s, t);
    }
  }

  lemma {:induction false} RunInvariant(calls: seq<Call>, run: seq<State>)
    requires IsRun(calls, run)
    ensures Invariant(calls, run[|run| - 1])
  {
    if |run| == 1 {
      InitInvariant(calls);
    } else {
      RunInvariant(calls, run[..|run| - 1]);
      assert Follows(calls, run[|run| - 2], run[|run| - 1]);
      var t :| Enabled(calls, run[|run| - 2], t) && run[|run| - 1] == Do(calls, run[|run| - 2], t);
      StepInvariant(calls, run[|run| - 2], t);
    }
  }

  // ----- What holds over whole runs

  /** A message is only ever being delivered to the current listener, which is not
      released; a reply, also the one to a document that does not parse, only to a
      callback that is not released. */
  lemma DeliveredToLiveReferences(calls: seq<Call>, run: seq<State>, t: nat)
    requires IsRun(calls, run) && t < |run[|run| - 1].pcs|
    ensures var s := run[|run| - 1];
            && (s.pcs[t].Delivering? ==> s.listener == Some(s.pcs[t].ref) && s.pcs[t].ref in Live(s))
            && (s.pcs[t].Entered? || s.pcs[t].Replying? ==> t in Live(s))
  {
    RunInvariant(calls, run);
    var s := run[|run| - 1];
    assert RefOk(calls, s, t);
    if s.pcs[t].Delivering? {
      assert RefOk(calls, s, s.pcs[t].ref);
    }
  }

  /** Everything that keeps a reference unreleased. */
  ghost function Held(calls: seq<Call>, s: State): set<Ref> {
    PendingActions(calls, s) + PendingSetups(calls, s) + ComingListeners(calls, s)
    + CurrentListener(s) + OutgoingListeners(s) + Leaked(calls, s)
  }

  lemma HeldAt(calls: seq<Call>, s: State, t: Ref)
    requires Invariant(calls, s)
    ensures t in Held(calls, s) <==> t < |calls| && Somewhere(calls, s, t)
    ensures t in OutgoingListeners(s) <==> IsOutgoing(s, t)
  {
    assert t in OutgoingListeners(s) <==> IsOutgoing(s, t);
    assert t in CurrentListener(s) <==> s.listener == Some(t);
  }

  lemma LiveAt(calls: seq<Call>, s: State, t: Ref)
    requires Invariant(calls, s)
    ensures t in Live(s) <==> t in Held(calls, s)
    ensures s.released[t] == multiset(s.created - Live(s))[t]
  {
    HeldAt(calls, s, t);
    if t < |calls| {
      assert RefOk(calls, s, t);
    }
  }

  /** The unreleased references are the pending actions' and setups', the incoming,
      current and outgoing listeners and the leaked ones, each for one reason only. */
  lemma LiveReferences(calls: seq<Call>, run: seq<State>)
    requires IsRun(calls, run)
    ensures var s := run[|run| - 1]; Live(s) == Held(calls, s) && s.released == multiset(s.created - Live(s))
    ensures var s := run[|run| - 1];
            PendingActions(calls, s) !! PendingSetups(calls, s) !! ComingListeners(calls, s)
            !! CurrentListener(s) !! OutgoingListeners(s) !! Leaked(calls, s)
  {
    RunInvariant(calls, run);
    var s := run[|run| - 1];
    forall t: Ref ensures t in Live(s) <==> t in Held(calls, s) {
      LiveAt(calls, s, t);
    }
    forall t: Ref ensures s.released[t] == multiset(s.created - Live(s))[t] {
      LiveAt(calls, s, t);
    }
    HeldForOneReason(calls, s);
  }

  lemma HeldForOneReason(calls: seq<Call>, s: State)
    requires Invariant(calls, s)
    ensures PendingActions(calls, s) !! PendingSetups(calls, s) !! ComingListeners(calls, s)
            !! CurrentListener(s) !! OutgoingListeners(s) !! Leaked(calls, s)
  {
    forall t: Ref | t in OutgoingListeners(s) || t in CurrentListener(s)
      ensures t < |calls| && calls[t] == Listen(true) && !s.pcs[t].Swapping? && !s.pcs[t].Writing?
    {
      HeldAt(calls, s, t);
      assert RefOk(calls, s, t);
    }
  }

  /** References created minus references released, counted by who holds them. */
  lemma LedgerBalances(calls: seq<Call>, run: seq<State>)
    requires IsRun(calls, run)
    ensures |run[|run| - 1].created| - |run[|run| - 1].released|
         == |PendingActions(calls, run[|run| - 1])| + |PendingSetups(calls, run[|run| - 1])|
            + |ComingListeners(calls, run[|run| - 1])| + |CurrentListener(run[|run| - 1])|
            + |OutgoingListeners(run[|run| - 1])| + |Leaked(calls, run[|run| - 1])|
  {
    LiveReferences(calls, run);
    var s := run[|run| - 1];
    assert s.created == (s.created - Live(s)) + Live(s);
    var a, b, c := PendingActions(calls, s), PendingSetups(calls, s), ComingListeners(calls, s);
    var d, e, f := CurrentListener(s), OutgoingListeners(s), Leaked(calls, s);
    assert |a + b + c + d + e + f| == |a| + |b| + |c| + |d| + |e| + |f|;
  }

  /** A finished invocation or setup has released its callback once, but for an
      invocation whose document does not parse or whose method is "message": that never does. */
  lemma InvocationReleasesExactly(calls: seq<Call>, run: seq<State>, t: nat)
    requires IsRun(calls, run)
    requires t < |calls| && t < |run[|run| - 1].pcs| && run[|run| - 1].pcs[t].Done?
    requires calls[t].Invoke? || calls[t].QuickSetup?
    ensures run[|run| - 1].released[t] == if Leaks(calls[t]) then 0 else 1
    ensures t in Live(run[|run| - 1]) <==> Leaks(calls[t])
  {
    RunInvariant(calls, run);
    assert RefOk(calls, run[|run| - 1], t);
  }

  /** A call whose document does not parse, or whose method is "message", ends with
      its callback unreleased. */
  lemma LeaksItsCallback(call: Call) returns (run: seq<State>)
    requires Leaks(call)
    ensures IsRun([call], run)
    ensures var s := run[|run| - 1]; s.pcs == [Done] && Live(s) == {0} && s.released == multiset{}
  {
    var calls := [call];
    run := [Init(calls)];
    while run[|run| - 1].pcs != [Done]
      invariant IsRun(calls, run)
      invariant var s := run[|run| - 1];
                |s.pcs| == 1 && CallOk(call, s.pcs[0]) && s.released == multiset{} && s.listener == None
                && s.created == (if s.pcs[0].Idle? then {} else {0})
                && (s.pcs[0] == Done || s.pcs[0] == Idle || PendingPc(s.pcs[0]))
      decreases Ahead(run[|run| - 1].pcs[0])
    {
      var s := run[|run| - 1];
      var next := Do(calls, s, 0);
      assert Follows(calls, s, next);
      run := run + [next];
    }
  }

  function Ahead(pc: Pc): nat {
    match pc
    case Idle => 4
    case Entered => 3
    case Handling => 2
    case Replying => 1
    case _ => 0
  }

  // ----- What a call has done by the time it is done

  /** The moment a call is for: the reply to an invocation or a setup; the new listener
      in place; a message on its way to the listener, if there is one and it marshals. */
  ghost predicate TakesEffect(call: Call, s: State, t: nat) {
    && t < |s.pcs|
    && match call
       case Invoke(parses, _) => if parses then s.pcs[t].Replying? else s.pcs[t].Entered?
       case QuickSetup => s.pcs[t].Replying?
       case Listen(some) => s.pcs[t].Swapped? && s.listener == if some then Some(t) else None
       case Emit(marshals) =>
         if s.listener.Some? && marshals then s.pcs[t] == Delivering(s.listener.value) else s.pcs[t].Reading?
  }

  predicate BeforeEffect(pc: Pc) {
    pc.Idle? || pc.Entered? || pc.Handling? || pc.Swapping? || pc.Writing? || pc.Reading?
  }

  lemma StepEffect(calls: seq<Call>, s: State, a: nat, t: nat)
    requires Enabled(calls, s, a) && t < |calls| && t < |s.pcs| && CallOk(calls[t], s.pcs[t])
    requires BeforeEffect(s.pcs[t])
    ensures var u := Do(calls, s, a);
            t < |u.pcs| && (BeforeEffect(u.pcs[t]) || TakesEffect(calls[t], s, t) || TakesEffect(calls[t], u, t))
  {
  }

  ghost predicate EverTakesEffect(calls: seq<Call>, run: seq<State>, t: nat) {
    exists i :: 0 <= i < |run| && t < |calls| && TakesEffect(calls[t], run[i], t)
  }

  /** No call is done without its effect: every invocation and setup has been replied to,
      every listener put in place, and every message that marshals has been handed to the
      listener there was. */
  lemma {:induction false} EveryCallTakesEffect(calls: seq<Call>, run: seq<State>, t: nat)
    requires IsRun(calls, run) && t < |calls|
    ensures t < |run[|run| - 1].pcs|
    ensures BeforeEffect(run[|run| - 1].pcs[t]) || EverTakesEffect(calls, run, t)
  {
    if |run| > 1 {
      var front := run[..|run| - 1];
      EveryCallTakesEffect(calls, front, t);
      RunInvariant(calls, front);
      assert RefOk(calls, front[|front| - 1], t);
      assert Follows(calls, run[|run| - 2], run[|run| - 1]);
      var a :| Enabled(calls, run[|run| - 2], a) && run[|run| - 1] == Do(calls, run[|run| - 2], a);
      if EverTakesEffect(calls, front, t) {
        var i :| 0 <= i < |front| && TakesEffect(calls[t], front[i], t);
        assert TakesEffect(calls[t], run[i], t);
      } else {
        StepEffect(calls, front[|front| - 1], a, t);
        assert TakesEffect(calls[t], run[|run| - 2], t) ==> EverTakesEffect(calls, run, t);
        assert TakesEffect(calls[t], run[|run| - 1], t) ==> EverTakesEffect(calls, run, t);
      }
    }
  }

  ghost predicate CanStep(calls: seq<Call>, s: State) {
    exists t :: Enabled(calls, s, t)
  }

  /** While a call is not done, some call can go on. */
  lemma NeverStuck(calls: seq<Call>, run: seq<State>, t: nat)
    requires IsRun(calls, run) && t < |run[|run| - 1].pcs| && !run[|run| - 1].pcs[t].Done?
    ensures CanStep(calls, run[|run| - 1])
  {
    RunInvariant(calls, run);
    var s := run[|run| - 1];
    if s.writer.Some? {
      assert Enabled(calls, s, s.writer.value);
    } else if x :| x in s.readers {
      assert Enabled(calls, s, x);
    } else {
      assert Enabled(calls, s, t);
    }
  }

  /** Messages do not wait for each other, only for a listener that is being put in place. */
  lemma MessagesShareTheLock(calls: seq<Call>, s: State, t: nat)
    requires t < |calls| && t < |s.pcs| && calls[t].Emit? && s.pcs[t].Idle? && s.writer.None?
    ensures Enabled(calls, s, t) && t in Do(calls, s, t).readers && s.readers <= Do(calls, s, t).readers
  {
  }

  // ----- With the TUN callbacks

  ghost function TunCallbacks(programs: seq<TunFence.Program>): set<Ref> {
    set x | 0 <= x < |programs| && programs[x].Start?
  }

  /** Starts that still have their callback to hand over or to give back. */
  ghost function StartingCallbacks(programs: seq<TunFence.Program>, s: TunFence.State): set<Ref> {
    set x | 0 <= x < |programs| && x < |s.threads| && programs[x].Start? && TunFence.BeforeHandler(s.threads[x])
  }

  ghost function HeldCallbacks(s: TunFence.State): set<Ref> {
    set x | x in s.handlers && s.handlers[x].callback
  }

  lemma TunCallbackAt(programs: seq<TunFence.Program>, s: TunFence.State, x: Ref)
    requires TunFence.Invariant(programs, s)
    ensures x in StartingCallbacks(programs, s) + HeldCallbacks(s) ==> x in TunCallbacks(programs)
    ensures x in StartingCallbacks(programs, s) ==> x !in HeldCallbacks(s)
    ensures s.released[x]
         == if x in TunCallbacks(programs) && x !in StartingCallbacks(programs, s) + HeldCallbacks(s) then 1 else 0
  {
    if x < |programs| {
      assert TunFence.CallbackOk(programs, s, x);
    }
  }

  lemma TunCallbackSets(programs: seq<TunFence.Program>, s: TunFence.State)
    requires TunFence.Invariant(programs, s)
    ensures StartingCallbacks(programs, s) + HeldCallbacks(s) <= TunCallbacks(programs)
    ensures StartingCallbacks(programs, s) !! HeldCallbacks(s)
    ensures s.released == multiset(TunCallbacks(programs) - (StartingCallbacks(programs, s) + HeldCallbacks(s)))
  {
    forall x: Ref
      ensures x in StartingCallbacks(programs, s) + HeldCallbacks(s) ==> x in TunCallbacks(programs)
      ensures x in StartingCallbacks(programs, s) ==> x !in HeldCallbacks(s)
      ensures s.released[x] == multiset(TunCallbacks(programs) - (StartingCallbacks(programs, s) + HeldCallbacks(s)))[x]
    {
      TunCallbackAt(programs, s, x);
    }
  }

  lemma HeldPlusReleased(all: set<Ref>, a: set<Ref>, b: set<Ref>, released: multiset<Ref>)
    requires a + b <= all && a !! b && released == multiset(all - (a + b))
    ensures |all| - |released| == |a| + |b|
  {
    assert all == (all - (a + b)) + (a + b);
    assert |a + b| == |a| + |b|;
  }

  /** The callbacks brought by starts and not released are those of starts under
      way and those that a handler holds. */
  lemma TunLedgerBalances(programs: seq<TunFence.Program>, run: seq<TunFence.State>)
    requires TunFence.IsRun(programs, run)
    ensures StartingCallbacks(programs, run[|run| - 1]) !! HeldCallbacks(run[|run| - 1])
    ensures |TunCallbacks(programs)| - |run[|run| - 1].released|
         == |StartingCallbacks(programs, run[|run| - 1])| + |HeldCallbacks(run[|run| - 1])|
  {
    var s := run[|run| - 1];
    TunFence.RunInvariant(programs, run);
    TunCallbackSets(programs, s);
    HeldPlusReleased(TunCallbacks(programs), StartingCallbacks(programs, s), HeldCallbacks(s), s.released);
  }

  /** All references of both kinds: those created less those released are those of
      actions, setups, listeners and leaks, and those of TUN starts and handlers. */
  lemma WholeLedgerBalances(
    calls: seq<Call>, run: seq<State>, programs: seq<TunFence.Program>, tun: seq<TunFence.State>)
    requires IsRun(calls, run) && TunFence.IsRun(programs, tun)
    ensures |run[|run| - 1].created| + |TunCallbacks(programs)| - |run[|run| - 1].released| - |tun[|tun| - 1].released|
         == |PendingActions(calls, run[|run| - 1])| + |PendingSetups(calls, run[|run| - 1])|
            + |ComingListeners(calls, run[|run| - 1])| + |CurrentListener(run[|run| - 1])|
            + |OutgoingListeners(run[|run| - 1])| + |Leaked(calls, run[|run| - 1])|
            + |StartingCallbacks(programs, tun[|tun| - 1])| + |HeldCallbacks(tun[|tun| - 1])|
  {
    LedgerBalances(calls, run);
    TunLedgerBalances(programs, tun);
  }
}
