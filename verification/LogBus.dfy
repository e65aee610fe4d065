/** The log bus: any number of producers that never block, one consumer, and a
    bounded queue that drops its oldest event, as interleaved steps. */
module LogBus {

  /** The n-th event that a producer dispatches. */
  datatype Event = Event(producer: nat, number: nat)

  /** The statements of dispatch. */
  datatype Pc =
    | Idle
    | Offering         // first send ahead
    | Evicting         // the queue was full: receive ahead
    | Counting         // an event was evicted: counting it ahead
    | Reoffering       // second send ahead
    | CountingOwn      // the event itself was dropped: counting it ahead

  datatype Producer = Producer(pc: Pc, issued: nat)

  /** The statements of the drain loop. */
  datatype Drain = Waiting | Routing(e: Event) | Reporting(dropped: nat)

  /** lost collects the dropped events; the source keeps only their number. */
  datatype State = State(
    producers: seq<Producer>,
    queue: seq<Event>,
    drain: Drain,
    routed: seq<Event>,
    dropCount: nat,
    reported: nat,
    lost: multiset<Event>)

  function Init(n: nat): State {
    State(seq(n, _ => Producer(Idle, 0)), [], Waiting, [], 0, 0, multiset{})
  }

  // ----- Steps

  datatype Action = Dispatch(p: nat) | Take | Route | Tick | Report

  predicate Enabled(s: State, a: Action) {
    match a
    case Dispatch(p) => p < |s.producers|
    case Take => s.drain.Waiting? && s.queue != []
    case Route => s.drain.Routing?
    case Tick => s.drain.Waiting?
    case Report => s.drain.Reporting?
  }

  /** The event a producer is dispatching. */
  function Current(s: State, p: nat): Event
    requires p < |s.producers|
  {
    Event(p, if s.producers[p].issued > 0 then s.producers[p].issued - 1 else 0)
  }

  function NextProducer(capacity: nat, s: State, p: nat): Producer
    requires p < |s.producers|
  {
    var producer := s.producers[p];
    match producer.pc
    case Idle => Producer(Offering, producer.issued + 1)
    case Offering => producer.(pc := if |s.queue| < capacity then Idle else Evicting)
    case Evicting => producer.(pc := if s.queue != [] then Counting else Reoffering)
    case Counting => producer.(pc := Reoffering)
    case Reoffering => producer.(pc := if |s.queue| < capacity then Idle else CountingOwn)
    case CountingOwn => producer.(pc := Idle)
  }

  function NextQueue(capacity: nat, s: State, p: nat): seq<Event>
    requires p < |s.producers|
  {
    match s.producers[p].pc
    case Offering => if |s.queue| < capacity then s.queue + [Current(s, p)] else s.queue
    case Evicting => if s.queue != [] then s.queue[1..] else s.queue
    case Reoffering => if |s.queue| < capacity then s.queue + [Current(s, p)] else s.queue
    case _ => s.queue
  }

  function NextLost(capacity: nat, s: State, p: nat): multiset<Event>
    requires p < |s.producers|
  {
    match s.producers[p].pc
    case Evicting => if s.queue != [] then s.lost + multiset{s.queue[0]} else s.lost
    case Reoffering => if |s.queue| < capacity then s.lost else s.lost + multiset{Current(s, p)}
    case _ => s.lost
  }

  function NextDropCount(s: State, p: nat): nat
    requires p < |s.producers|
  {
    if s.producers[p].pc.Counting? || s.producers[p].pc.CountingOwn? then s.dropCount + 1 else s.dropCount
  }

  function Do(capacity: nat, s: State, a: Action): State
    requires Enabled(s, a)
  {
    match a
    case Dispatch(p) =>
      s.(producers := s.producers[p := NextProducer(capacity, s, p)], queue := NextQueue(capacity, s, p),
         dropCount := NextDropCount(s, p), lost := NextLost(capacity, s, p))
    case Take => s.(drain := Routing(s.queue[0]), queue := s.queue[1..])
    case Route => s.(drain := Waiting, routed := s.routed + [s.drain.e])
    case Tick => s.(drain := Reporting(s.dropCount), dropCount := 0)
    case Report => s.(drain := Waiting, reported := s.reported + s.drain.dropped)
  }

  ghost predicate Follows(capacity: nat, s: State, u: State) {
    exists a :: Enabled(s, a) && u == Do(capacity, s, a)
  }

  ghost predicate IsRun(capacity: nat, n: nat, run: seq<State>) {
    && |run| > 0 && run[0] == Init(n)
    && forall j :: 0 <= j < |run| - 1 ==> Follows(capacity, run[j], run[j + 1])
  }

  // ----- Where every event is

  /** What the consumer has taken: routed events and the one being routed. */
  ghost function Out(s: State): seq<Event> {
    s.routed + if s.drain.Routing? then [s.drain.e] else []
  }

  /** Routed, being routed and queued events, oldest first. */
  ghost function Line(s: State): seq<Event> {
    Out(s) + s.queue
  }

  /** Dispatching the event, which is neither in the line nor dropped. */
  predicate Inside(pc: Pc) {
    pc.Offering? || pc.Evicting? || pc.Counting? || pc.Reoffering?
  }

  ghost predicate IsInside(s: State, e: Event) {
    e.producer < |s.producers| && Inside(s.producers[e.producer].pc) && e == Current(s, e.producer)
  }

  ghost predicate IsIssued(s: State, e: Event) {
    e.producer < |s.producers| && e.number < s.producers[e.producer].issued
  }

  /** Every issued event is in exactly one place; no other event is anywhere. */
  ghost predicate InOnePlace(s: State, e: Event) {
    multiset(Line(s))[e] + s.lost[e] + InsideCount(s, e) == IssuedCount(s, e)
  }

  /** Dropped by this producer and not counted yet. */
  function Uncounted(pc: Pc): nat {
    if pc.Counting? || pc.CountingOwn? then 1 else 0
  }

  ghost function AllUncounted(producers: seq<Producer>): nat {
    if producers == [] then 0 else Uncounted(producers[0].pc) + AllUncounted(producers[1..])
  }

  function InHand(drain: Drain): nat {
    if drain.Reporting? then drain.dropped else 0
  }

  /** Drops are exactly the reported, the counted and the not yet counted ones. */
  ghost predicate DropsCounted(s: State) {
    |s.lost| == s.reported + InHand(s.drain) + s.dropCount + AllUncounted(s.producers)
  }

  /** The events of one producer stand in the order they were dispatched, and
      before the one it is dispatching. */
  ghost predicate InOrder(s: State) {
    && Sorted(Line(s))
    && (forall e :: e in Line(s) ==> IsIssued(s, e))
    && (forall e :: e in Line(s) && Inside(s.producers[e.producer].pc) ==>
          e.number < s.producers[e.producer].issued - 1)
    && (forall p :: 0 <= p < |s.producers| && !s.producers[p].pc.Idle? ==> s.producers[p].issued > 0)
  }

  ghost predicate Invariant(capacity: nat, s: State) {
    && |s.queue| <= capacity
    && (forall e :: InOnePlace(s, e))
    && DropsCounted(s)
    && InOrder(s)
  }

  lemma {:induction false} UncountedChange(producers: seq<Producer>, p: nat, producer: Producer)
    requires p < |producers|
    ensures AllUncounted(producers[p := producer]) + Uncounted(producers[p].pc)
         == AllUncounted(producers) + Uncounted(producer.pc)
  {
    if p == 0 {
      assert producers[p := producer][1..] == producers[1..];
    } else {
      UncountedChange(producers[1..], p - 1, producer);
      assert producers[p := producer][1..] == producers[1..][p - 1 := producer];
    }
  }

  lemma {:induction false} NothingUncounted(producers: seq<Producer>)
    requires forall p :: 0 <= p < |producers| ==> Uncounted(producers[p].pc) == 0
    ensures AllUncounted(producers) == 0
  {
    if producers != [] {
      NothingUncounted(producers[1..]);
    }
  }

  lemma StepDrops(capacity: nat, s: State, a: Action)
    requires DropsCounted(s) && Enabled(s, a)
    ensures DropsCounted(Do(capacity, s, a))
  {
    if a.Dispatch? {
      UncountedChange(s.producers, a.p, NextProducer(capacity, s, a.p));
    }
  }

  /** What a step puts into the line and what it takes out of it. */
  ghost function Added(capacity: nat, s: State, a: Action): multiset<Event>
    requires Enabled(s, a)
  {
    if a.Dispatch? && (s.producers[a.p].pc.Offering? || s.producers[a.p].pc.Reoffering?) && |s.queue| < capacity
    then multiset{Current(s, a.p)} else multiset{}
  }

  ghost function Taken(s: State, a: Action): multiset<Event>
    requires Enabled(s, a)
  {
    if a.Dispatch? && s.producers[a.p].pc.Evicting? && s.queue != [] then multiset{s.queue[0]} else multiset{}
  }

  /** The event a step drops because its second send found the queue full again. */
  ghost function Refused(capacity: nat, s: State, a: Action): multiset<Event>
    requires Enabled(s, a)
  {
    if a.Dispatch? && s.producers[a.p].pc.Reoffering? && |s.queue| >= capacity
    then multiset{Current(s, a.p)} else multiset{}
  }

  /** after is before, or lacks its k-th event, or has one more at its end. */
  ghost predicate LineMove(
    before: seq<Event>, after: seq<Event>, k: nat, taken: multiset<Event>, added: multiset<Event>)
  {
    || (after == before && taken == added == multiset{})
    || (k < |before| && after == before[..k] + before[k + 1..] && taken == multiset{before[k]} && added == multiset{})
    || (|after| == |before| + 1 && after == before + [after[|before|]]
        && taken == multiset{} && added == multiset{after[|before|]})
  }

  lemma LineCounts(before: seq<Event>, after: seq<Event>, k: nat, taken: multiset<Event>, added: multiset<Event>)
    requires LineMove(before, after, k, taken, added)
    ensures multiset(after) + taken == multiset(before) + added
  {
    if k < |before| {
      assert before == before[..k] + [before[k]] + before[k + 1..];
    }
  }

  lemma DispatchLine(capacity: nat, s: State, p: nat)
    requires p < |s.producers|
    ensures var u := Do(capacity, s, Dispatch(p));
            Out(u) == Out(s) && LineMove(s.queue, u.queue, 0, Taken(s, Dispatch(p)), Added(capacity, s, Dispatch(p)))
  {
  }

  lemma DrainLine(capacity: nat, s: State, a: Action)
    requires Enabled(s, a) && !a.Dispatch?
    ensures Line(Do(capacity, s, a)) == Line(s)
  {
    if a.Take? {
      assert s.queue == [s.queue[0]] + s.queue[1..];
    }
  }

  lemma LineMoveAfter(
    out: seq<Event>, before: seq<Event>, after: seq<Event>, taken: multiset<Event>, added: multiset<Event>)
    requires LineMove(before, after, 0, taken, added)
    ensures LineMove(out + before, out + after, |out|, taken, added)
  {
    if |before| > 0 && after == before[..0] + before[1..] {
      assert out + after == (out + before)[..|out|] + (out + before)[|out| + 1..];
    } else if |after| == |before| + 1 {
      assert out + after == (out + before) + [after[|before|]];
    }
  }

  /** The line only ever grows at its end, or loses the oldest queued event. */
  lemma StepLine(capacity: nat, s: State, a: Action)
    requires Enabled(s, a)
    ensures LineMove(Line(s), Line(Do(capacity, s, a)), |Out(s)|, Taken(s, a), Added(capacity, s, a))
  {
    if a.Dispatch? {
      DispatchLine(capacity, s, a.p);
      LineMoveAfter(Out(s), s.queue, Do(capacity, s, a).queue, Taken(s, a), Added(capacity, s, a));
    } else {
      DrainLine(capacity, s, a);
    }
  }

  /** Whether e is inside its dispatch, and issued, as numbers. */
  ghost function InsideCount(s: State, e: Event): nat {
    if IsInside(s, e) then 1 else 0
  }

  ghost function IssuedCount(s: State, e: Event): nat {
    if IsIssued(s, e) then 1 else 0
  }

  /** An event is issued into its dispatch; from there it goes into the line or is dropped. */
  lemma StepInside(capacity: nat, s: State, a: Action, e: Event)
    requires Enabled(s, a)
    requires a.Dispatch? ==> s.producers[a.p].pc.Idle? || s.producers[a.p].issued > 0
    ensures InsideCount(Do(capacity, s, a), e) + Added(capacity, s, a)[e]
            + Refused(capacity, s, a)[e] + IssuedCount(s, e)
         == InsideCount(s, e) + IssuedCount(Do(capacity, s, a), e)
  {
  }

  lemma StepPlaces(capacity: nat, s: State, a: Action, e: Event)
    requires InOnePlace(s, e) && InOrder(s) && Enabled(s, a)
    ensures InOnePlace(Do(capacity, s, a), e)
  {
    var u := Do(capacity, s, a);
    var taken, added, refused := Taken(s, a), Added(capacity, s, a), Refused(capacity, s, a);
    StepLine(capacity, s, a);
    LineCounts(Line(s), Line(u), |Out(s)|, taken, added);
    StepInside(capacity, s, a, e);
    StepLost(capacity, s, a);
    assert (multiset(Line(u)) + taken)[e] == (multiset(Line(s)) + added)[e];
    assert u.lost[e] == s.lost[e] + taken[e] + refused[e];
  }

  lemma StepLost(capacity: nat, s: State, a: Action)
    requires Enabled(s, a)
    ensures Do(capacity, s, a).lost == s.lost + Taken(s, a) + Refused(capacity, s, a)
  {
  }

  /** The line in order, told from the line alone. */
  ghost predicate Sorted(line: seq<Event>) {
    forall i, j :: 0 <= i < j < |line| && line[i].producer == line[j].producer ==> line[i].number < line[j].number
  }

  lemma LineStaysSorted(before: seq<Event>, after: seq<Event>, k: nat, taken: multiset<Event>, added: multiset<Event>)
    requires LineMove(before, after, k, taken, added) && Sorted(before)
    requires forall e, x :: e in before && x in added && e.producer == x.producer ==> e.number < x.number
    ensures Sorted(after)
    ensures forall e :: e in after ==> e in before || e in added
  {
    if k < |before| && after == before[..k] + before[k + 1..] {
      forall i | 0 <= i < |after| ensures after[i] == before[if i < k then i else i + 1] {}
    }
  }

  lemma StepOrder(capacity: nat, s: State, a: Action)
    requires InOrder(s) && Enabled(s, a)
    ensures InOrder(Do(capacity, s, a))
  {
    var u := Do(capacity, s, a);
    StepLine(capacity, s, a);
    LineStaysSorted(Line(s), Line(u), |Out(s)|, Taken(s, a), Added(capacity, s, a));
    forall e | e in Line(u)
      ensures IsIssued(u, e) && (Inside(u.producers[e.producer].pc) ==> e.number < u.producers[e.producer].issued - 1)
    {
      assert e in Line(s) || e in Added(capacity, s, a);
      assert e in Line(s) ==> IsIssued(s, e);
    }
  }

  lemma StepInvariant(capacity: nat, s: State, a: Action)
    requires Invariant(capacity, s) && Enabled(s, a)
    ensures Invariant(capacity, Do(capacity, s, a))
  {
    StepDrops(capacity, s, a);
    StepOrder(capacity, s, a);
    forall e ensures InOnePlace(Do(capacity, s, a), e) {
      StepPlaces(capacity, s, a, e);
    }
  }

  lemma InitInvariant(capacity: nat, n: nat)
    ensures Invariant(capacity, Init(n))
  {
    var s := Init(n);
    NothingUncounted(s.producers);
    assert Line(s) == [];
    forall e ensures InOnePlace(s, e) {
      NothingIssued(n, e);
    }
  }

  lemma NothingIssued(n: nat, e: Event)
    ensures InsideCount(Init(n), e) == IssuedCount(Init(n), e) == 0
  {
  }

  lemma LastStep(capacity: nat, n: nat, run: seq<State>) returns (a: Action)
    requires IsRun(capacity, n, run) && |run| > 1
    ensures IsRun(capacity, n, run[..|run| - 1])
    ensures Enabled(run[|run| - 2], a) && run[|run| - 1] == Do(capacity, run[|run| - 2], a)
  {
    assert Follows(capacity, run[|run| - 2], run[|run| - 1]);
    a :| Enabled(run[|run| - 2], a) && run[|run| - 1] == Do(capacity, run[|run| - 2], a);
  }

  lemma {:induction false} RunInvariant(capacity: nat, n: nat, run: seq<State>)
    requires IsRun(capacity, n, run)
    ensures Invariant(capacity, run[|run| - 1])
  {
    if |run| == 1 {
      InitInvariant(capacity, n);
    } else {
      var a := LastStep(capacity, n, run);
      RunInvariant(capacity, n, run[..|run| - 1]);
      StepInvariant(capacity, run[|run| - 2], a);
    }
  }

  // ----- What holds over whole runs

  /** Nothing is lost unseen: each event is routed, queued, inside its dispatch or
      dropped; drops are the reported, the counted and the not yet counted ones;
      the queue keeps its bound and each producer's events their order. */
  lemma BusConserves(capacity: nat, n: nat, run: seq<State>, e: Event)
    requires IsRun(capacity, n, run)
    ensures InOnePlace(run[|run| - 1], e) && DropsCounted(run[|run| - 1])
    ensures |run[|run| - 1].queue| <= capacity && Sorted(Line(run[|run| - 1]))
  {
    RunInvariant(capacity, n, run);
  }

  /** Statements a dispatch has at most ahead of it. */
  function StepsLeft(pc: Pc): nat {
    match pc
    case Idle => 0
    case Offering => 5
    case Evicting => 4
    case Counting => 3
    case Reoffering => 2
    case CountingOwn => 1
  }

  /** A dispatch never waits, and each of its statements brings it nearer its end. */
  lemma DispatchIsBounded(capacity: nat, s: State, p: nat)
    requires p < |s.producers| && !s.producers[p].pc.Idle?
    ensures Enabled(s, Dispatch(p))
    ensures StepsLeft(Do(capacity, s, Dispatch(p)).producers[p].pc) < StepsLeft(s.producers[p].pc) <= 5
  {
  }

  // ----- One producer

  /** With one producer the second send always finds room. */
  ghost predicate SoleProducer(capacity: nat, s: State) {
    && |s.producers| == 1 && capacity > 0
    && !s.producers[0].pc.CountingOwn?
    && (s.producers[0].pc.Counting? || s.producers[0].pc.Reoffering? ==> |s.queue| < capacity)
    && (s.producers[0].pc.Idle? && s.producers[0].issued > 0 ==>
          Line(s) != [] && Line(s)[|Line(s)| - 1] == Current(s, 0))
  }

  lemma StepSoleProducer(capacity: nat, s: State, a: Action)
    requires SoleProducer(capacity, s) && |s.queue| <= capacity && Enabled(s, a)
    ensures SoleProducer(capacity, Do(capacity, s, a))
  {
    if a.Dispatch? {
      SoleDispatch(capacity, s);
    } else {
      DrainLine(capacity, s, a);
    }
  }

  /** A dispatch that comes to its end has put its event at the end of the line. */
  lemma SoleDispatch(capacity: nat, s: State)
    requires SoleProducer(capacity, s) && |s.queue| <= capacity
    ensures SoleProducer(capacity, Do(capacity, s, Dispatch(0)))
  {
    var u := Do(capacity, s, Dispatch(0));
    if u.producers[0].pc.Idle? {
      assert u.queue == s.queue + [Current(s, 0)] && Current(u, 0) == Current(s, 0);
    }
  }

  lemma {:induction false} RunSoleProducer(capacity: nat, run: seq<State>)
    requires capacity > 0 && IsRun(capacity, 1, run)
    ensures SoleProducer(capacity, run[|run| - 1])
  {
    if |run| > 1 {
      var a := LastStep(capacity, 1, run);
      RunSoleProducer(capacity, run[..|run| - 1]);
      RunInvariant(capacity, 1, run[..|run| - 1]);
      StepSoleProducer(capacity, run[|run| - 2], a);
    }
  }

  /** After each dispatch of a sole producer, whatever the consumer does: what is
      routed and queued is in order, ends with the newest event, and is short of
      what was issued by exactly the drops counted. */
  lemma NewestIsNeverDropped(capacity: nat, run: seq<State>)
    requires capacity > 0 && IsRun(capacity, 1, run)
    requires run[|run| - 1].producers != []
    requires run[|run| - 1].producers[0].pc.Idle? && run[|run| - 1].producers[0].issued > 0
    ensures var s := run[|run| - 1];
            && Line(s) != [] && Line(s)[|Line(s)| - 1] == Current(s, 0) && Sorted(Line(s))
            && (forall e :: e in Line(s) ==> IsIssued(s, e))
            && |Line(s)| + s.reported + InHand(s.drain) + s.dropCount == s.producers[0].issued
  {
    RunInvariant(capacity, 1, run);
    RunSoleProducer(capacity, run);
    LineAndLost(run[|run| - 1]);
    NothingUncounted(run[|run| - 1].producers);
  }

  lemma LineAndLost(s: State)
    requires |s.producers| == 1 && s.producers[0].pc.Idle? && forall e :: InOnePlace(s, e)
    ensures |Line(s)| + |s.lost| == s.producers[0].issued
  {
    var all := Numbers(s.producers[0].issued);
    forall e ensures (multiset(Line(s)) + s.lost)[e] == multiset(all)[e] {
      assert InOnePlace(s, e);
      NumbersOnce(s.producers[0].issued, e);
    }
    SameSize(Line(s), s.lost, all);
  }

  lemma SameSize(line: seq<Event>, lost: multiset<Event>, all: seq<Event>)
    requires forall e :: (multiset(line) + lost)[e] == multiset(all)[e]
    ensures |line| + |lost| == |all|
  {
    assert multiset(line) + lost == multiset(all);
    assert |multiset(line)| == |line| && |multiset(all)| == |all|;
  }

  ghost function Numbers(n: nat): (r: seq<Event>)
    ensures |r| == n
  {
    if n == 0 then [] else Numbers(n - 1) + [Event(0, n - 1)]
  }

  lemma {:induction false} NumbersOnce(n: nat, e: Event)
    ensures multiset(Numbers(n))[e] == if e.producer == 0 && e.number < n then 1 else 0
  {
    if n > 0 {
      NumbersOnce(n - 1, e);
    }
  }

  // ----- More than one producer

  ghost predicate Reachable(capacity: nat, n: nat, s: State) {
    exists run :: IsRun(capacity, n, run) && run[|run| - 1] == s
  }

  lemma ReachStep(capacity: nat, n: nat, s: State, a: Action)
    requires Reachable(capacity, n, s) && Enabled(s, a)
    ensures Reachable(capacity, n, Do(capacity, s, a))
  {
    var run :| IsRun(capacity, n, run) && run[|run| - 1] == s;
    var longer := run + [Do(capacity, s, a)];
    forall j | 0 <= j < |longer| - 1 ensures Follows(capacity, longer[j], longer[j + 1]) {
      if j < |run| - 1 {
        assert Follows(capacity, run[j], run[j + 1]);
      }
    }
    assert IsRun(capacity, n, longer) && longer[|longer| - 1] == Do(capacity, s, a);
  }

  lemma {:induction false} FillQueue(capacity: nat, n: nat, k: nat) returns (s: State)
    requires n >= 2 && k <= capacity
    ensures Reachable(capacity, n, s) && |s.queue| == k && |s.producers| == n
    ensures forall p :: 0 <= p < n ==> s.producers[p].pc.Idle?
  {
    if k == 0 {
      s := Init(n);
      assert IsRun(capacity, n, [s]);
    } else {
      var before := FillQueue(capacity, n, k - 1);
      ReachStep(capacity, n, before, Dispatch(0));
      var offering := Do(capacity, before, Dispatch(0));
      ReachStep(capacity, n, offering, Dispatch(0));
      s := Do(capacity, offering, Dispatch(0));
    }
  }

  /** A producer that meets a full queue is at its second send after a few statements of its own. */
  lemma ReachReoffering(capacity: nat, n: nat, full: State, p: nat) returns (s: State)
    requires Reachable(capacity, n, full) && p < |full.producers|
    requires full.producers[p].pc.Idle? && |full.queue| == capacity
    ensures Reachable(capacity, n, s) && |s.producers| == |full.producers|
    ensures forall q :: 0 <= q < |s.producers| && q != p ==> s.producers[q] == full.producers[q]
    ensures s.producers[p].pc.Reoffering? && (capacity > 0 ==> |s.queue| == capacity - 1) && |s.queue| <= capacity
  {
    s := full;
    ReachStep(capacity, n, s, Dispatch(p));
    s := Do(capacity, s, Dispatch(p));
    ReachStep(capacity, n, s, Dispatch(p));
    s := Do(capacity, s, Dispatch(p));
    ReachStep(capacity, n, s, Dispatch(p));
    s := Do(capacity, s, Dispatch(p));
    if capacity > 0 {
      ReachStep(capacity, n, s, Dispatch(p));
      s := Do(capacity, s, Dispatch(p));
    }
  }

  /** Producer 1 evicts, and producer 0 takes the room before producer 1 can. */
  lemma SecondProducerLosesItsNewest(capacity: nat, n: nat) returns (s: State)
    requires n >= 2
    ensures Reachable(capacity, n, s) && |s.producers| == n && s.producers[1].pc.CountingOwn?
  {
    var full := FillQueue(capacity, n, capacity);
    s := ReachReoffering(capacity, n, full, 1);
    ReachStep(capacity, n, s, Dispatch(0));
    s := Do(capacity, s, Dispatch(0));
    ReachStep(capacity, n, s, Dispatch(0));
    s := Do(capacity, s, Dispatch(0));
    assert |s.queue| >= capacity;
    ReachStep(capacity, n, s, Dispatch(1));
    s := Do(capacity, s, Dispatch(1));
  }

  /** No dispatch ever drops its own event exactly when there is at most one producer. */
  lemma OwnEventKeptExactly(capacity: nat, n: nat)
    requires capacity > 0
    ensures (forall s, p :: Reachable(capacity, n, s) && 0 <= p < |s.producers| ==> !s.producers[p].pc.CountingOwn?)
            <==> n <= 1
  {
    if n >= 2 {
      var s := SecondProducerLosesItsNewest(capacity, n);
    } else {
      forall s, p | Reachable(capacity, n, s) && 0 <= p < |s.producers| ensures !s.producers[p].pc.CountingOwn? {
        var run :| IsRun(capacity, n, run) && run[|run| - 1] == s;
        RunKeepsProducers(capacity, n, run);
        if n == 1 {
          RunSoleProducer(capacity, run);
        }
      }
    }
  }

  lemma {:induction false} RunKeepsProducers(capacity: nat, n: nat, run: seq<State>)
    requires IsRun(capacity, n, run)
    ensures |run[|run| - 1].producers| == n
  {
    if |run| > 1 {
      var a := LastStep(capacity, n, run);
      RunKeepsProducers(capacity, n, run[..|run| - 1]);
    }
  }

  // ----- Drops only when the queue is full, and the oldest first

  ghost predicate MeetsFull(capacity: nat, s: State, p: nat, issued: nat) {
    p < |s.producers| && s.producers[p] == Producer(Offering, issued) && |s.queue| >= capacity
  }

  lemma DropStep(capacity: nat, s: State, a: Action, p: nat)
    requires Enabled(s, a) && p < |s.producers|
    ensures |Do(capacity, s, a).producers| == |s.producers|
    ensures var pc, before := Do(capacity, s, a).producers[p].pc, s.producers[p].pc;
            !pc.Idle? && !pc.Offering? ==>
              Do(capacity, s, a).producers[p].issued == s.producers[p].issued
              && ((!before.Idle? && !before.Offering?) || MeetsFull(capacity, s, p, s.producers[p].issued))
  {
  }

  ghost predicate EverMetFull(capacity: nat, run: seq<State>, p: nat, issued: nat) {
    exists i :: 0 <= i < |run| && MeetsFull(capacity, run[i], p, issued)
  }

  lemma MetFullStays(capacity: nat, run: seq<State>, p: nat, issued: nat)
    requires |run| > 1
    requires EverMetFull(capacity, run[..|run| - 1], p, issued) || MeetsFull(capacity, run[|run| - 2], p, issued)
    ensures EverMetFull(capacity, run, p, issued)
  {
    if EverMetFull(capacity, run[..|run| - 1], p, issued) {
      var i :| 0 <= i < |run| - 1 && MeetsFull(capacity, run[..|run| - 1][i], p, issued);
      assert run[i] == run[..|run| - 1][i];
    }
  }

  /** A dispatch that evicts, counts or sends a second time has met a full queue. */
  lemma {:induction false} OnlyFullQueuesDrop(capacity: nat, n: nat, run: seq<State>, p: nat)
    requires IsRun(capacity, n, run) && p < |run[|run| - 1].producers|
    requires var pc := run[|run| - 1].producers[p].pc; !pc.Idle? && !pc.Offering?
    ensures EverMetFull(capacity, run, p, run[|run| - 1].producers[p].issued)
  {
    if |run| > 1 {
      var a := LastStep(capacity, n, run);
      var front := run[..|run| - 1];
      var issued := run[|run| - 1].producers[p].issued;
      DropStep(capacity, front[|front| - 1], a, p);
      if !MeetsFull(capacity, front[|front| - 1], p, issued) {
        OnlyFullQueuesDrop(capacity, n, front, p);
      }
      MetFullStays(capacity, run, p, issued);
    }
  }

  ghost predicate NothingDropped(s: State) {
    && s.lost == multiset{} && s.reported + InHand(s.drain) + s.dropCount == 0
    && forall p :: 0 <= p < |s.producers| ==> s.producers[p].pc.Idle? || s.producers[p].pc.Offering?
  }

  /** A run whose queue is never full drops nothing and reports no drop. */
  lemma {:induction false} NothingDroppedWithRoom(capacity: nat, n: nat, run: seq<State>)
    requires IsRun(capacity, n, run) && forall j :: 0 <= j < |run| ==> |run[j].queue| < capacity
    ensures NothingDropped(run[|run| - 1])
  {
    if |run| > 1 {
      var a := LastStep(capacity, n, run);
      NothingDroppedWithRoom(capacity, n, run[..|run| - 1]);
      assert |run[|run| - 2].queue| < capacity;
    }
  }

  /** A dispatch into a queue with room ends with its first send: the event is last in
      the queue, and nothing else has changed. */
  lemma SendsAtOnce(capacity: nat, s: State, p: nat)
    requires p < |s.producers| && s.producers[p].pc.Offering? && |s.queue| < capacity
    ensures Do(capacity, s, Dispatch(p))
         == s.(producers := s.producers[p := s.producers[p].(pc := Idle)], queue := s.queue + [Current(s, p)])
  {
  }

  /** Left alone, a dispatch into a full queue drops the oldest event, counts it, and
      puts its own last. */
  lemma OverflowDropsOldest(capacity: nat, s: State, p: nat) returns (u: State)
    requires p < |s.producers| && s.producers[p].pc.Idle? && |s.queue| == capacity > 0
    ensures u == s.(producers := s.producers[p := Producer(Idle, s.producers[p].issued + 1)],
                    queue := s.queue[1..] + [Event(p, s.producers[p].issued)],
                    lost := s.lost + multiset{s.queue[0]}, dropCount := s.dropCount + 1)
  {
    u := Do(capacity, s, Dispatch(p));
    u := Do(capacity, u, Dispatch(p));
    u := Do(capacity, u, Dispatch(p));
    u := Do(capacity, u, Dispatch(p));
    u := Do(capacity, u, Dispatch(p));
  }

  // ----- The drain

  /** The consumer is never stuck, and takes what is queued whenever it waits. */
  lemma DrainGoesOn(s: State)
    ensures Enabled(s, Take) || Enabled(s, Route) || Enabled(s, Tick) || Enabled(s, Report)
    ensures s.drain.Waiting? && s.queue != [] ==> Enabled(s, Take)
    ensures s.drain.Waiting? ==> Enabled(s, Tick)
  {
  }

  /** What a tick finds counted is reported by the time the consumer waits again. */
  lemma {:induction false} ReportsEveryCount(capacity: nat, n: nat, run: seq<State>, j: nat)
    requires IsRun(capacity, n, run) && j + 1 < |run|
    requires Enabled(run[j], Tick) && run[j + 1] == Do(capacity, run[j], Tick)
    ensures run[|run| - 1].reported + InHand(run[|run| - 1].drain) >= run[j].reported + run[j].dropCount
    ensures run[|run| - 1].drain.Waiting? ==> run[|run| - 1].reported >= run[j].reported + run[j].dropCount
    decreases |run|
  {
    if j + 1 < |run| - 1 {
      var a := LastStep(capacity, n, run);
      ReportsEveryCount(capacity, n, run[..|run| - 1], j);
    }
  }
}
