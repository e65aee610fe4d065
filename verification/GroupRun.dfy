/** The concurrent group test as interleaved steps: one worker per group of the
    order, one task per member, every read of a pick a step of its own. */
module GroupRun {

  import opened Options
  import opened Graphs
  import opened GroupPick
  import GroupOrder
  import opened Gathering

  type Url = string
  type Picks = map<Name, Name>

  datatype Group = Group(testUrl: Url, urlTest: bool, pinned: bool, members: seq<Name>)

  /** One group test. What a delay test answers depends on the member, on where the
      picks lead from it and on the URL; the alive flag on the member and the URL. */
  datatype World = World(
    groups: map<Name, Group>,
    defaultUrl: Url,
    order: seq<Name>,
    probe: (Name, Option<Arrival>, Url) -> int,
    alive: (Name, Url) -> bool)

  datatype GroupDelay = GroupDelay(name: Name, url: Url, value: int)

  function Members(world: World, name: Name): seq<Name> {
    if name in world.groups then world.groups[name].members else []
  }

  function UrlOf(world: World, name: Name): Url {
    if name in world.groups && world.groups[name].testUrl != "" then world.groups[name].testUrl
    else world.defaultUrl
  }

  function PickOf(picks: Picks, name: Name): Name {
    if name in picks then picks[name] else ""
  }

  /** What the groups answer when a walk reads them under these picks. */
  function StepsOf(world: World, picks: Picks): Steps {
    map n | n in world.groups :: Step(PickOf(picks, n), UrlOf(world, n))
  }

  function OnlyGroups(world: World, names: seq<Name>): seq<Name> {
    if names == [] then []
    else (if names[0] in world.groups then [names[0]] else []) + OnlyGroups(world, names[1..])
  }

  /** The nested groups of each group, as the test hands them to Order. */
  function GraphOf(world: World): Graph {
    map n | n in world.groups :: OnlyGroups(world, world.groups[n].members)
  }

  // ----- States

  datatype Task = Waiting | Reading(walk: Walk) | Measured

  datatype Worker =
    | Testing(tasks: seq<Task>, delays: Delays)
    | Attributing(found: seq<GroupDelay>, delays: Delays, k: nat, walk: Walk)
    | Closing
    | Done

  /** closed lists the done channels in the order they were closed. */
  datatype State = State(workers: seq<Worker>, picks: Picks, results: seq<GroupDelay>, closed: seq<Name>)

  function FirstWorker(world: World, name: Name): Worker {
    if name in world.groups then Testing(seq(|world.groups[name].members|, _ => Waiting), map[])
    else Closing
  }

  function Init(world: World, picks: Picks): State {
    State(seq(|world.order|, i requires 0 <= i < |world.order| => FirstWorker(world, world.order[i])), picks, [], [])
  }

  /** The last position of a name in the order, or -1. */
  function IndexOf(order: seq<Name>, name: Name): int {
    if order == [] then -1
    else if order[|order| - 1] == name then |order| - 1
    else IndexOf(order[..|order| - 1], name)
  }

  /** await(child) in worker i returns: the child is not earlier in the order, or its channel is closed. */
  predicate Passes(world: World, s: State, i: nat, child: Name) {
    0 <= IndexOf(world.order, child) < i ==> child in s.closed
  }

  /** A member without a reply that kept it alive counts as failed. */
  function Masked(world: World, url: Url, members: seq<Name>, delays: Delays): Delays {
    map m | m in members :: if world.alive(m, url) then DelayOf(delays, m) else -1
  }

  function Rows(members: seq<Name>, url: Url, delays: Delays): seq<GroupDelay> {
    seq(|members|, j requires 0 <= j < |members| => GroupDelay(members[j], url, DelayOf(delays, members[j])))
  }

  /** The pick an unpinned url-test group is seated on; any other group keeps its own. */
  function SeatedPick(group: Group, delays: Delays, pick: Name): Name {
    var best := FastestOf(group.members, delays);
    if group.urlTest && best != "" && !group.pinned then best else pick
  }

  // ----- Steps

  datatype Action =
    | Await(i: nat, k: nat)
    | Read(i: nat, k: nat)
    | Seat(i: nat)
    | Attribute(i: nat)
    | Publish(i: nat)
    | Close(i: nat)

  predicate Enabled(world: World, s: State, a: Action) {
    && a.i < |s.workers| && a.i < |world.order|
    && var name := world.order[a.i];
       var members := Members(world, name);
       match a
       case Await(i, k) => s.workers[i].Testing? && k < |s.workers[i].tasks| && k < |members|
                           && s.workers[i].tasks[k].Waiting? && Passes(world, s, i, members[k])
       case Read(i, k) => s.workers[i].Testing? && k < |s.workers[i].tasks| && k < |members|
                          && s.workers[i].tasks[k].Reading?
       case Seat(i) => s.workers[i].Testing? && name in world.groups
                       && forall k :: 0 <= k < |s.workers[i].tasks| ==> s.workers[i].tasks[k].Measured?
       case Attribute(i) => s.workers[i].Attributing? && s.workers[i].k < |members|
       case Publish(i) => s.workers[i].Attributing? && s.workers[i].k == |members|
       case Close(i) => s.workers[i].Closing?
  }

  function BeginAt(members: seq<Name>, k: nat): Walk {
    Begin(if k < |members| then members[k] else "")
  }

  /** What the stepping worker becomes. */
  function Moved(world: World, s: State, a: Action): Worker
    requires Enabled(world, s, a)
  {
    var members := Members(world, world.order[a.i]);
    var url := UrlOf(world, world.order[a.i]);
    var worker := s.workers[a.i];
    match a
    case Await(_, k) => worker.(tasks := worker.tasks[k := Reading(Begin(members[k]))])
    case Read(_, k) =>
      (match Advance(StepsOf(world, s.picks), members[k], worker.tasks[k].walk)
       case Moving(walk) => worker.(tasks := worker.tasks[k := Reading(walk)])
       case Ended(result) =>
         Testing(worker.tasks[k := Measured], worker.delays[members[k] := world.probe(members[k], result, url)]))
    case Seat(_) =>
      var delays := Masked(world, url, members, worker.delays);
      Attributing(Rows(members, url, delays), delays, 0, BeginAt(members, 0))
    case Attribute(_) =>
      (match Advance(StepsOf(world, s.picks), members[worker.k], worker.walk)
       case Moving(walk) => worker.(walk := walk)
       case Ended(result) =>
         Attributing(worker.found + LeafRow(result, worker.delays, members[worker.k]), worker.delays,
                     worker.k + 1, BeginAt(members, worker.k + 1)))
    case Publish(_) => Closing
    case Close(_) => Done
  }

  function Do(world: World, s: State, a: Action): State
    requires Enabled(world, s, a)
  {
    var name := world.order[a.i];
    var worker := s.workers[a.i];
    var t := s.(workers := s.workers[a.i := Moved(world, s, a)]);
    match a
    case Seat(_) =>
      var delays := Masked(world, UrlOf(world, name), Members(world, name), worker.delays);
      t.(picks := s.picks[name := SeatedPick(world.groups[name], delays, PickOf(s.picks, name))])
    case Publish(_) => t.(results := s.results + worker.found)
    case Close(_) => t.(closed := s.closed + [name])
    case _ => t
  }

  /** A nested group's leaf is given the delay its parent measured. */
  function LeafRow(result: Option<Arrival>, delays: Delays, member: Name): seq<GroupDelay> {
    if result.Some? then [GroupDelay(result.value.leaf, result.value.url, DelayOf(delays, member))] else []
  }

  ghost predicate Follows(world: World, s: State, t: State) {
    exists a :: Enabled(world, s, a) && t == Do(world, s, a)
  }

  ghost predicate IsRun(world: World, picks: Picks, run: seq<State>) {
    && |run| > 0 && run[0] == Init(world, picks)
    && forall j :: 0 <= j < |run| - 1 ==> Follows(world, run[j], run[j + 1])
  }

  ghost predicate CanStep(world: World, s: State) {
    exists a :: Enabled(world, s, a)
  }

  ghost predicate AllDone(s: State) {
    forall i :: 0 <= i < |s.workers| ==> s.workers[i].Done?
  }

  // ----- The shape every state keeps

  ghost predicate WorkerShape(world: World, name: Name, worker: Worker) {
    match worker
    case Testing(tasks, _) => name in world.groups && |tasks| == |Members(world, name)|
    case Attributing(_, _, k, _) => name in world.groups && k <= |Members(world, name)|
    case _ => true
  }

  /** Task k of this worker has gone past its await. */
  ghost predicate PastAwait(worker: Worker, k: nat) {
    match worker
    case Testing(tasks, _) => k < |tasks| && !tasks[k].Waiting?
    case Attributing(_, _, _, _) => true
    case _ => true
  }

  ghost predicate Shape(world: World, s: State) {
    && |s.workers| == |world.order|
    && (forall i :: 0 <= i < |s.workers| ==> WorkerShape(world, world.order[i], s.workers[i]))
    && (forall i :: 0 <= i < |s.workers| && s.workers[i].Done? ==> world.order[i] in s.closed)
    && multiset(s.closed) == Gathered(Singles(world.order), DoneMarks(s.workers))
    && (forall i, k :: 0 <= i < |s.workers| && 0 <= k < |Members(world, world.order[i])|
                       && PastAwait(s.workers[i], k) ==>
          Passes(world, s, i, Members(world, world.order[i])[k]))
  }

  ghost function DoneMarks(workers: seq<Worker>): (r: seq<bool>)
    ensures |r| == |workers|
  {
    seq(|workers|, i requires 0 <= i < |workers| => workers[i].Done?)
  }

  lemma InitShape(world: World, picks: Picks)
    ensures Shape(world, Init(world, picks))
  {
    var s := Init(world, picks);
    NoneMarked(Singles(world.order), DoneMarks(s.workers));
  }

  lemma MovedShape(world: World, s: State, a: Action)
    requires Shape(world, s) && Enabled(world, s, a)
    ensures !s.workers[a.i].Done?
    ensures WorkerShape(world, world.order[a.i], Moved(world, s, a))
    ensures Moved(world, s, a).Done? <==> a.Close?
    ensures forall k :: 0 <= k < |Members(world, world.order[a.i])| && PastAwait(Moved(world, s, a), k) ==>
        PastAwait(s.workers[a.i], k) || Passes(world, s, a.i, Members(world, world.order[a.i])[k])
  {
    assert WorkerShape(world, world.order[a.i], s.workers[a.i]);
  }

  lemma ShapeKept(world: World, s: State, t: State, i: nat, worker: Worker)
    requires Shape(world, s) && i < |s.workers| && !s.workers[i].Done?
    requires WorkerShape(world, world.order[i], worker)
    requires forall k :: 0 <= k < |Members(world, world.order[i])| && PastAwait(worker, k) ==>
        PastAwait(s.workers[i], k) || Passes(world, s, i, Members(world, world.order[i])[k])
    requires t.workers == s.workers[i := worker]
    requires t.closed == s.closed + if worker.Done? then [world.order[i]] else []
    ensures Shape(world, t)
  {
    if worker.Done? {
      MarkOne(Singles(world.order), DoneMarks(s.workers), i);
      assert DoneMarks(t.workers) == DoneMarks(s.workers)[i := true];
    } else {
      assert DoneMarks(t.workers) == DoneMarks(s.workers);
    }
    forall j, k | 0 <= j < |t.workers| && 0 <= k < |Members(world, world.order[j])| && PastAwait(t.workers[j], k)
      ensures Passes(world, t, j, Members(world, world.order[j])[k])
    {
      assert Passes(world, s, j, Members(world, world.order[j])[k]);
    }
  }

  lemma StepShape(world: World, s: State, a: Action)
    requires Shape(world, s) && Enabled(world, s, a)
    ensures Shape(world, Do(world, s, a))
  {
    MovedShape(world, s, a);
    ShapeKept(world, s, Do(world, s, a), a.i, Moved(world, s, a));
  }

  lemma {:induction false} RunShape(world: World, picks: Picks, run: seq<State>)
    requires IsRun(world, picks, run)
    ensures Shape(world, run[|run| - 1])
  {
    if |run| == 1 {
      InitShape(world, picks);
    } else {
      RunShape(world, picks, run[..|run| - 1]);
      assert Follows(world, run[|run| - 2], run[|run| - 1]);
      var a :| Enabled(world, run[|run| - 2], a) && run[|run| - 1] == Do(world, run[|run| - 2], a);
      StepShape(world, run[|run| - 2], a);
    }
  }

  // ----- Never stuck, always finished

  lemma {:induction false} IndexOfIsPosition(order: seq<Name>, name: Name)
    ensures var j := IndexOf(order, name);
            -1 <= j < |order| && (j >= 0 <==> name in order) && (j >= 0 ==> order[j] == name)
  {
    if order != [] {
      var front := order[..|order| - 1];
      IndexOfIsPosition(front, name);
      assert order == front + [order[|order| - 1]];
    }
  }

  /** Whatever the order and whatever each worker awaits, a worker can go on until all are done. */
  lemma RunNeverStuck(world: World, picks: Picks, run: seq<State>)
    requires IsRun(world, picks, run) && !AllDone(run[|run| - 1])
    ensures CanStep(world, run[|run| - 1])
  {
    RunShape(world, picks, run);
    var s := run[|run| - 1];
    var i :| 0 <= i < |s.workers| && !s.workers[i].Done?;
    UnfinishedGoesOn(world, s, i);
  }

  lemma {:induction false} UnfinishedGoesOn(world: World, s: State, i: nat)
    requires Shape(world, s) && i < |s.workers| && !s.workers[i].Done?
    ensures CanStep(world, s)
  {
    if j :| 0 <= j < i && !s.workers[j].Done? {
      UnfinishedGoesOn(world, s, j);
      return;
    }
    var name := world.order[i];
    var members := Members(world, name);
    assert WorkerShape(world, name, s.workers[i]);
    match s.workers[i]
    case Testing(tasks, _) =>
      if k :| 0 <= k < |tasks| && !tasks[k].Measured? {
        if tasks[k].Waiting? {
          IndexOfIsPosition(world.order, members[k]);
          assert Enabled(world, s, Await(i, k));
        } else {
          assert Enabled(world, s, Read(i, k));
        }
      } else {
        assert Enabled(world, s, Seat(i));
      }
    case Attributing(_, _, k, _) =>
      if k < |members| {
        assert Enabled(world, s, Attribute(i));
      } else {
        assert Enabled(world, s, Publish(i));
      }
    case Closing =>
      assert Enabled(world, s, Close(i));
  }

  /** Steps one pick walk may still take. */
  ghost function WalkCost(world: World, walk: Walk): nat {
    |world.groups.Keys - walk.seen|
  }

  ghost function TaskCost(world: World, task: Task): nat {
    match task
    case Waiting => |world.groups| + 2
    case Reading(walk) => WalkCost(world, walk) + 1
    case Measured => 0
  }

  ghost function TasksCost(world: World, tasks: seq<Task>): nat {
    if tasks == [] then 0 else TaskCost(world, tasks[0]) + TasksCost(world, tasks[1..])
  }

  ghost function MembersCost(world: World, n: nat): nat {
    if n == 0 then 0 else MembersCost(world, n - 1) + |world.groups| + 2
  }

  ghost function WorkerCost(world: World, name: Name, worker: Worker): nat {
    var n := |Members(world, name)|;
    match worker
    case Testing(tasks, _) => TasksCost(world, tasks) + MembersCost(world, n) + |world.groups| + 4
    case Attributing(_, _, k, walk) =>
      (if k <= n then MembersCost(world, n - k) else 0) + WalkCost(world, walk) + 3
    case Closing => 1
    case Done => 0
  }

  ghost function Cost(world: World, order: seq<Name>, workers: seq<Worker>): nat
    requires |order| == |workers|
  {
    if order == [] then 0 else WorkerCost(world, order[0], workers[0]) + Cost(world, order[1..], workers[1..])
  }

  lemma {:induction false} TasksCostChange(world: World, tasks: seq<Task>, k: nat, task: Task)
    requires k < |tasks|
    ensures TasksCost(world, tasks[k := task]) + TaskCost(world, tasks[k])
         == TasksCost(world, tasks) + TaskCost(world, task)
  {
    if k == 0 {
      assert tasks[k := task][1..] == tasks[1..];
    } else {
      TasksCostChange(world, tasks[1..], k - 1, task);
      assert tasks[k := task][1..] == tasks[1..][k - 1 := task];
    }
  }

  lemma {:induction false} CostChange(world: World, order: seq<Name>, workers: seq<Worker>, i: nat, worker: Worker)
    requires |order| == |workers| && i < |workers|
    ensures Cost(world, order, workers[i := worker]) + WorkerCost(world, order[i], workers[i])
         == Cost(world, order, workers) + WorkerCost(world, order[i], worker)
  {
    if i == 0 {
      assert workers[i := worker][1..] == workers[1..];
    } else {
      CostChange(world, order[1..], workers[1..], i - 1, worker);
      assert workers[i := worker][1..] == workers[1..][i - 1 := worker];
    }
  }

  lemma AdvanceCosts(world: World, picks: Picks, name: Name, walk: Walk)
    ensures var p := Advance(StepsOf(world, picks), name, walk);
            p.Moving? ==> WalkCost(world, p.walk) < WalkCost(world, walk)
  {
    var p := Advance(StepsOf(world, picks), name, walk);
    if p.Moving? {
      assert world.groups.Keys - p.walk.seen == (world.groups.Keys - walk.seen) - {walk.cur};
    }
  }

  lemma ReadCosts(world: World, s: State, i: nat, k: nat)
    requires Shape(world, s) && Enabled(world, s, Read(i, k))
    ensures WorkerCost(world, world.order[i], Moved(world, s, Read(i, k)))
          < WorkerCost(world, world.order[i], s.workers[i])
  {
    var tasks := s.workers[i].tasks;
    TasksCostChange(world, tasks, k, Moved(world, s, Read(i, k)).tasks[k]);
    AdvanceCosts(world, s.picks, Members(world, world.order[i])[k], tasks[k].walk);
  }

  lemma AwaitCosts(world: World, s: State, i: nat, k: nat)
    requires Shape(world, s) && Enabled(world, s, Await(i, k))
    ensures WorkerCost(world, world.order[i], Moved(world, s, Await(i, k)))
          < WorkerCost(world, world.order[i], s.workers[i])
  {
    TasksCostChange(world, s.workers[i].tasks, k, Moved(world, s, Await(i, k)).tasks[k]);
    assert world.groups.Keys - {} == world.groups.Keys;
  }

  lemma AttributeCosts(world: World, s: State, i: nat)
    requires Shape(world, s) && Enabled(world, s, Attribute(i))
    ensures WorkerCost(world, world.order[i], Moved(world, s, Attribute(i)))
          < WorkerCost(world, world.order[i], s.workers[i])
  {
    AdvanceCosts(world, s.picks, Members(world, world.order[i])[s.workers[i].k], s.workers[i].walk);
    assert world.groups.Keys - {} == world.groups.Keys;
  }

  lemma SeatCosts(world: World, s: State, i: nat)
    requires Shape(world, s) && Enabled(world, s, Seat(i))
    ensures WorkerCost(world, world.order[i], Moved(world, s, Seat(i)))
          < WorkerCost(world, world.order[i], s.workers[i])
  {
    assert world.groups.Keys - {} == world.groups.Keys;
  }

  lemma MovedCosts(world: World, s: State, a: Action)
    requires Shape(world, s) && Enabled(world, s, a)
    ensures WorkerCost(world, world.order[a.i], Moved(world, s, a))
          < WorkerCost(world, world.order[a.i], s.workers[a.i])
  {
    match a
    case Await(i, k) => AwaitCosts(world, s, i, k);
    case Read(i, k) => ReadCosts(world, s, i, k);
    case Seat(i) => SeatCosts(world, s, i);
    case Attribute(i) => AttributeCosts(world, s, i);
    case _ =>
  }

  lemma StepCosts(world: World, s: State, a: Action)
    requires Shape(world, s) && Enabled(world, s, a)
    ensures Cost(world, world.order, Do(world, s, a).workers) < Cost(world, world.order, s.workers)
  {
    MovedCosts(world, s, a);
    CostChange(world, world.order, s.workers, a.i, Moved(world, s, a));
    assert Do(world, s, a).workers == s.workers[a.i := Moved(world, s, a)];
  }

  /** Every run is at most as long as the work it starts with: with RunNeverStuck, every run finishes. */
  lemma {:induction false} RunIsBounded(world: World, picks: Picks, run: seq<State>)
    requires IsRun(world, picks, run)
    ensures |run[|run| - 1].workers| == |world.order|
    ensures |run| - 1 + Cost(world, world.order, run[|run| - 1].workers)
         <= Cost(world, world.order, Init(world, picks).workers)
  {
    if |run| > 1 {
      var front := run[..|run| - 1];
      RunIsBounded(world, picks, front);
      RunShape(world, picks, front);
      assert Follows(world, run[|run| - 2], run[|run| - 1]);
      var a :| Enabled(world, run[|run| - 2], a) && run[|run| - 1] == Do(world, run[|run| - 2], a);
      StepCosts(world, run[|run| - 2], a);
    }
  }

  /** A finished run has closed each worker's channel; no channel is closed twice
      exactly when the order lists no name twice. */
  lemma RunClosesOnce(world: World, picks: Picks, run: seq<State>)
    requires IsRun(world, picks, run) && AllDone(run[|run| - 1])
    ensures multiset(run[|run| - 1].closed) == multiset(world.order)
    ensures GroupOrder.NoDuplicates(run[|run| - 1].closed) <==> GroupOrder.NoDuplicates(world.order)
  {
    RunShape(world, picks, run);
    var s := run[|run| - 1];
    AllMarked(Singles(world.order), DoneMarks(s.workers));
    SumOfSingles(world.order);
    NoDuplicatesCounts(s.closed);
    NoDuplicatesCounts(world.order);
  }

  lemma NoDuplicatesCounts(s: seq<Name>)
    ensures GroupOrder.NoDuplicates(s) <==> forall x :: multiset(s)[x] <= 1
  {
    if GroupOrder.NoDuplicates(s) {
      CountedOnce(s);
    } else {
      var i, j :| 0 <= i < j < |s| && s[i] == s[j];
      assert s == s[..j] + s[j..];
      assert s[i] in s[..j] && s[i] in s[j..];
      assert multiset(s)[s[i]] >= 2;
    }
  }

  lemma {:induction false} CountedOnce(s: seq<Name>)
    requires GroupOrder.NoDuplicates(s)
    ensures forall x :: multiset(s)[x] <= 1
  {
    if s != [] {
      var front, last := s[..|s| - 1], s[|s| - 1];
      CountedOnce(front);
      assert s == front + [last];
    }
  }

  // ----- A parent waits for its nested groups

  lemma {:induction false} OnlyGroupsHolds(world: World, names: seq<Name>, c: Name)
    ensures c in OnlyGroups(world, names) <==> c in names && c in world.groups
  {
    if names != [] {
      OnlyGroupsHolds(world, names[1..], c);
    }
  }

  lemma GraphEdges(world: World, a: Name, c: Name)
    ensures Edge(GraphOf(world), a, c) <==> c in Members(world, a) && c in world.groups
  {
    OnlyGroupsHolds(world, Members(world, a), c);
  }

  lemma {:induction false} IndexOfUnique(order: seq<Name>, j: nat)
    requires j < |order| && GroupOrder.NoDuplicates(order)
    ensures IndexOf(order, order[j]) == j
  {
    IndexOfIsPosition(order, order[j]);
  }

  /** In every run, cyclic or not: a parent tests a nested group that has not yet
      finished re-picking only if that group can itself reach the parent. */
  lemma EarlyTestOnlyOnCycles(world: World, roots: seq<Name>, picks: Picks, run: seq<State>, i: nat, k: nat)
    requires GroupOrder.IsTestOrder(GraphOf(world), roots, world.order)
    requires IsRun(world, picks, run)
    requires var s := run[|run| - 1];
             i < |s.workers| && i < |world.order| && k < |Members(world, world.order[i])|
             && PastAwait(s.workers[i], k)
             && Members(world, world.order[i])[k] in world.groups
             && Members(world, world.order[i])[k] !in s.closed
    ensures Reaches(GraphOf(world), Members(world, world.order[i])[k], world.order[i])
  {
    RunShape(world, picks, run);
    var s := run[|run| - 1];
    var c := Members(world, world.order[i])[k];
    GraphEdges(world, world.order[i], c);
    assert Passes(world, s, i, c);
    if c in world.order[..i] {
      var j :| 0 <= j < i && world.order[j] == c;
      IndexOfUnique(world.order, j);
    }
  }

  /** Without cycles a parent tests a nested group only after that group has
      finished re-picking, in every run. */
  lemma ParentsWaitWithoutCycles(world: World, roots: seq<Name>, picks: Picks, run: seq<State>, i: nat, k: nat)
    requires GroupOrder.IsTestOrder(GraphOf(world), roots, world.order) && Acyclic(GraphOf(world))
    requires IsRun(world, picks, run)
    requires var s := run[|run| - 1];
             i < |s.workers| && i < |world.order| && k < |Members(world, world.order[i])|
             && PastAwait(s.workers[i], k)
             && Members(world, world.order[i])[k] in world.groups
    ensures Members(world, world.order[i])[k] in run[|run| - 1].closed
  {
    var c := Members(world, world.order[i])[k];
    GraphEdges(world, world.order[i], c);
    if c !in run[|run| - 1].closed {
      EarlyTestOnlyOnCycles(world, roots, picks, run, i, k);
    }
  }

  /** Nothing else is waited for: a member that is a plain node, or a group not earlier
      in the order, or one that has finished, can be measured at once. */
  lemma OthersStartAtOnce(world: World, picks: Picks, run: seq<State>, i: nat, k: nat)
    requires IsRun(world, picks, run) && GroupOrder.NoDuplicates(world.order)
    requires i < |run[|run| - 1].workers| && i < |world.order| && k < |Members(world, world.order[i])|
    requires var worker := run[|run| - 1].workers[i]; worker.Testing? && k < |worker.tasks| && worker.tasks[k].Waiting?
    requires var m := Members(world, world.order[i])[k]; m !in world.order[..i] || m in run[|run| - 1].closed
    ensures Enabled(world, run[|run| - 1], Await(i, k))
  {
    IndexOfIsPosition(world.order, Members(world, world.order[i])[k]);
  }
}
