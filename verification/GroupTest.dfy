/** The concurrent group test gives what testing the groups one by one gives. */
module GroupTest {

  import opened Options
  import opened Graphs
  import opened GroupPick
  import opened GroupRun
  import GroupOrder
  import opened Gathering

  // ----- Testing one group after the other

  /** The masked delays of a group whose members are all measured under these picks. */
  ghost function Tested(world: World, picks: Picks, name: Name): Delays {
    var url := UrlOf(world, name);
    map m | m in Members(world, name) ::
      if world.alive(m, url) then world.probe(m, LeafOf(StepsOf(world, picks), m), url) else -1
  }

  ghost function LeafRows(steps: Steps, members: seq<Name>, delays: Delays): seq<GroupDelay> {
    if members == [] then [] else
    var last := |members| - 1;
    LeafRows(steps, members[..last], delays) + LeafRow(LeafOf(steps, members[last]), delays, members[last])
  }

  ghost function Report(world: World, delays: Delays, picks: Picks, name: Name): seq<GroupDelay> {
    if name !in world.groups then []
    else Rows(Members(world, name), UrlOf(world, name), delays)
         + LeafRows(StepsOf(world, picks), Members(world, name), delays)
  }

  ghost function Reseated(world: World, picks: Picks, name: Name): Picks {
    if name !in world.groups then picks
    else picks[name := SeatedPick(world.groups[name], Tested(world, picks, name), PickOf(picks, name))]
  }

  /** The picks after testing the first n groups of the order, one by one. */
  ghost function PicksAfter(world: World, picks: Picks, n: nat): Picks
    requires n <= |world.order|
  {
    if n == 0 then picks else Reseated(world, PicksAfter(world, picks, n - 1), world.order[n - 1])
  }

  /** What testing the group at position i in its turn reports. */
  ghost function ReportAt(world: World, picks: Picks, i: nat): seq<GroupDelay>
    requires i < |world.order|
  {
    Report(world, Tested(world, PicksAfter(world, picks, i), world.order[i]),
           PicksAfter(world, picks, i + 1), world.order[i])
  }

  ghost function ResultsAfter(world: World, picks: Picks, n: nat): seq<GroupDelay>
    requires n <= |world.order|
  {
    if n == 0 then [] else ResultsAfter(world, picks, n - 1) + ReportAt(world, picks, n - 1)
  }

  /** The picks and the results of testing every group of the order, one by one. */
  ghost function FinalPicks(world: World, picks: Picks): Picks {
    PicksAfter(world, picks, |world.order|)
  }

  ghost function FinalResults(world: World, picks: Picks): seq<GroupDelay> {
    ResultsAfter(world, picks, |world.order|)
  }

  // ----- What a walk depends on

  /** Every group's pick is one of its members, or it has no single pick. */
  ghost predicate PicksAreMembers(world: World, picks: Picks) {
    forall n :: n in world.groups ==> PickOf(picks, n) == "" || PickOf(picks, n) in Members(world, n)
  }

  ghost predicate SamePick(p: Picks, q: Picks, n: Name) {
    (n in p <==> n in q) && (n in p ==> p[n] == q[n])
  }

  ghost predicate AgreeBelow(world: World, p: Picks, q: Picks, n: Name) {
    forall x :: x in world.groups && Reaches(GraphOf(world), n, x) ==> SamePick(p, q, x)
  }

  lemma PickLeadsBelow(world: World, picks: Picks, n: Name, x: Name)
    requires PicksAreMembers(world, picks) && n in world.groups && PickOf(picks, n) != ""
    requires x in world.groups && Reaches(GraphOf(world), PickOf(picks, n), x)
    ensures Reaches(GraphOf(world), n, x)
  {
    var g, c := GraphOf(world), PickOf(picks, n);
    if c in world.groups {
      GraphEdges(world, n, c);
      ReachesEdge(g, n, c);
      ReachesTransitive(g, n, c, x);
    } else {
      NodeReachesItself(world, c, x);
    }
  }

  lemma NodeReachesItself(world: World, n: Name, x: Name)
    requires n !in world.groups && Reaches(GraphOf(world), n, x)
    ensures x == n
  {
    ClosedHoldsReached(GraphOf(world), {n}, n, x);
  }

  lemma {:induction false} FollowAgrees(world: World, p: Picks, q: Picks, name: Name, w: Walk)
    requires PicksAreMembers(world, p) && AgreeBelow(world, p, q, w.cur)
    ensures Follow(StepsOf(world, p), name, w) == Follow(StepsOf(world, q), name, w)
    decreases world.groups.Keys - w.seen
  {
    if w.cur in world.groups {
      ReachesSelf(GraphOf(world), w.cur);
      assert SamePick(p, q, w.cur);
      var step := Advance(StepsOf(world, p), name, w);
      if step.Moving? {
        forall x | x in world.groups && Reaches(GraphOf(world), step.walk.cur, x) ensures SamePick(p, q, x) {
          PickLeadsBelow(world, p, w.cur, x);
        }
        FollowAgrees(world, p, q, name, step.walk);
      }
    }
  }

  // ----- The sequential result is a fixed point

  lemma {:induction false} ReseatedPicksAreMembers(world: World, picks: Picks, n: nat)
    requires n <= |world.order| && PicksAreMembers(world, picks)
    ensures PicksAreMembers(world, PicksAfter(world, picks, n))
  {
    if n > 0 {
      ReseatedPicksAreMembers(world, picks, n - 1);
      var name := world.order[n - 1];
      LeaderIsAMember(Members(world, name), Tested(world, PicksAfter(world, picks, n - 1), name));
    }
  }

  lemma {:induction false} LaterTestsKeep(world: World, picks: Picks, i: nat, n: nat, x: Name)
    requires i <= n <= |world.order| && forall j :: i <= j < n ==> world.order[j] != x
    ensures SamePick(PicksAfter(world, picks, i), PicksAfter(world, picks, n), x)
    decreases n
  {
    if i < n {
      LaterTestsKeep(world, picks, i, n - 1, x);
    }
  }

  /** No cycles, and an order that lists what the roots reach, children first. */
  ghost predicate Testable(world: World, roots: seq<Name>, picks: Picks) {
    && Acyclic(GraphOf(world))
    && GroupOrder.IsTestOrder(GraphOf(world), roots, world.order)
    && PicksAreMembers(world, picks)
  }

  lemma BelowIsEarlier(world: World, roots: seq<Name>, picks: Picks, i: nat, m: Name, x: Name)
    requires Testable(world, roots, picks) && i < |world.order|
    requires m in Members(world, world.order[i])
    requires x in world.groups && Reaches(GraphOf(world), m, x)
    ensures x in world.order[..i]
  {
    var g := GraphOf(world);
    if m in world.groups {
      GraphEdges(world, world.order[i], m);
      GroupOrder.AcyclicListsChildrenBefore(g, roots, world.order, i, m);
      var earlier := set n | n in world.order[..i];
      forall a, b | a in earlier && Edge(g, a, b) ensures b in earlier {
        var j :| 0 <= j < i && world.order[j] == a;
        GroupOrder.AcyclicListsChildrenBefore(g, roots, world.order, j, b);
        assert world.order[..j] <= world.order[..i];
      }
      ClosedHoldsReached(g, earlier, m, x);
    } else {
      NodeReachesItself(world, m, x);
    }
  }

  /** From a member of order[i], a walk ends alike under the picks in force while
      order[i] is tested and reported, and under the final ones. */
  lemma LeafAlreadyFinal(world: World, roots: seq<Name>, picks: Picks, i: nat, n: nat, m: Name)
    requires Testable(world, roots, picks) && i < |world.order| && i <= n <= i + 1
    requires m in Members(world, world.order[i])
    ensures LeafOf(StepsOf(world, PicksAfter(world, picks, n)), m)
         == LeafOf(StepsOf(world, FinalPicks(world, picks)), m)
  {
    var now, final := PicksAfter(world, picks, n), FinalPicks(world, picks);
    ReseatedPicksAreMembers(world, picks, n);
    forall x | x in world.groups && Reaches(GraphOf(world), m, x) ensures SamePick(now, final, x) {
      BelowIsEarlier(world, roots, picks, i, m, x);
      LaterTestsKeep(world, picks, n, |world.order|, x);
    }
    FollowAgrees(world, now, final, m, Begin(m));
  }

  lemma TestedAlreadyFinal(world: World, roots: seq<Name>, picks: Picks, i: nat)
    requires Testable(world, roots, picks) && i < |world.order|
    ensures Tested(world, PicksAfter(world, picks, i), world.order[i])
         == Tested(world, FinalPicks(world, picks), world.order[i])
  {
    forall m | m in Members(world, world.order[i])
      ensures LeafOf(StepsOf(world, PicksAfter(world, picks, i)), m)
           == LeafOf(StepsOf(world, FinalPicks(world, picks)), m)
    {
      LeafAlreadyFinal(world, roots, picks, i, i, m);
    }
  }

  lemma {:induction false} LeafRowsAgree(p: Steps, q: Steps, members: seq<Name>, delays: Delays)
    requires forall m :: m in members ==> LeafOf(p, m) == LeafOf(q, m)
    ensures LeafRows(p, members, delays) == LeafRows(q, members, delays)
  {
    if members != [] {
      LeafRowsAgree(p, q, members[..|members| - 1], delays);
    }
  }

  /** A reseated group's final pick is the one its delays under the final picks
      give; no other pick has changed. */
  lemma FinalPick(world: World, roots: seq<Name>, picks: Picks, x: Name)
    requires Testable(world, roots, picks)
    ensures var final := FinalPicks(world, picks);
            if x in world.order && x in world.groups then
              x in final && final[x] == SeatedPick(world.groups[x], Tested(world, final, x), PickOf(picks, x))
            else SamePick(final, picks, x)
  {
    if x in world.order {
      var i :| 0 <= i < |world.order| && world.order[i] == x;
      LaterTestsKeep(world, picks, 0, i, x);
      LaterTestsKeep(world, picks, i + 1, |world.order|, x);
      TestedAlreadyFinal(world, roots, picks, i);
    } else {
      LaterTestsKeep(world, picks, 0, |world.order|, x);
    }
  }

  ghost function FinalReport(world: World, final: Picks, name: Name): seq<GroupDelay> {
    Report(world, Tested(world, final, name), final, name)
  }

  /** What each group of the order reports once every pick is final. */
  ghost function FinalReports(world: World, final: Picks): (r: seq<multiset<GroupDelay>>)
    ensures |r| == |world.order|
  {
    seq(|world.order|, i requires 0 <= i < |world.order| => multiset(FinalReport(world, final, world.order[i])))
  }

  lemma LeavesAlreadyFinal(world: World, roots: seq<Name>, picks: Picks, i: nat)
    requires Testable(world, roots, picks) && i < |world.order|
    ensures var after, final := PicksAfter(world, picks, i + 1), FinalPicks(world, picks);
            forall m :: m in Members(world, world.order[i]) ==>
              LeafOf(StepsOf(world, after), m) == LeafOf(StepsOf(world, final), m)
  {
    var after, final := PicksAfter(world, picks, i + 1), FinalPicks(world, picks);
    forall m | m in Members(world, world.order[i])
      ensures LeafOf(StepsOf(world, after), m) == LeafOf(StepsOf(world, final), m)
    {
      LeafAlreadyFinal(world, roots, picks, i, i + 1, m);
    }
  }

  lemma ReportsAgree(world: World, delays: Delays, p: Picks, q: Picks, name: Name)
    requires forall m :: m in Members(world, name) ==> LeafOf(StepsOf(world, p), m) == LeafOf(StepsOf(world, q), m)
    ensures Report(world, delays, p, name) == Report(world, delays, q, name)
  {
    LeafRowsAgree(StepsOf(world, p), StepsOf(world, q), Members(world, name), delays);
  }

  lemma ReportAlreadyFinal(world: World, roots: seq<Name>, picks: Picks, i: nat)
    requires Testable(world, roots, picks) && i < |world.order|
    ensures ReportAt(world, picks, i) == FinalReport(world, FinalPicks(world, picks), world.order[i])
  {
    var name := world.order[i];
    var after, final := PicksAfter(world, picks, i + 1), FinalPicks(world, picks);
    TestedAlreadyFinal(world, roots, picks, i);
    LeavesAlreadyFinal(world, roots, picks, i);
    ReportsAgree(world, Tested(world, final, name), after, final, name);
  }

  lemma {:induction false} SequentialSum(world: World, picks: Picks, reports: seq<multiset<GroupDelay>>, n: nat)
    requires |reports| == |world.order| && n <= |world.order|
    requires forall j :: 0 <= j < |world.order| ==> multiset(ReportAt(world, picks, j)) == reports[j]
    ensures multiset(ResultsAfter(world, picks, n)) == Sum(reports[..n])
  {
    if n > 0 {
      SequentialSum(world, picks, reports, n - 1);
      SumGrows(reports, n - 1);
    }
  }

  lemma SequentialReports(world: World, roots: seq<Name>, picks: Picks)
    requires Testable(world, roots, picks)
    ensures multiset(FinalResults(world, picks)) == Sum(FinalReports(world, FinalPicks(world, picks)))
  {
    var reports := FinalReports(world, FinalPicks(world, picks));
    forall j | 0 <= j < |world.order| ensures multiset(ReportAt(world, picks, j)) == reports[j] {
      ReportAlreadyFinal(world, roots, picks, j);
    }
    SequentialSum(world, picks, reports, |world.order|);
    assert reports[..|world.order|] == reports;
  }

  // ----- What every state of a concurrent run keeps, given the final picks

  /** A walk that ends where it ends under the final picks, over finished groups only. */
  ghost predicate OnCourse(world: World, final: Picks, closed: seq<Name>, member: Name, w: Walk) {
    && Follow(StepsOf(world, final), member, w) == LeafOf(StepsOf(world, final), member)
    && forall x :: x in world.groups && Reaches(GraphOf(world), w.cur, x) ==> x in closed
  }

  ghost predicate WorkerSettles(world: World, final: Picks, closed: seq<Name>, name: Name, worker: Worker) {
    var members := Members(world, name);
    var steps := StepsOf(world, final);
    WorkerShape(world, name, worker) &&
    match worker
    case Testing(tasks, delays) =>
      && (forall k :: 0 <= k < |tasks| && tasks[k].Reading? ==>
            OnCourse(world, final, closed, members[k], tasks[k].walk))
      && (forall k :: 0 <= k < |tasks| && tasks[k].Measured? ==> members[k] in delays)
      && (forall m :: m in delays ==> delays[m] == world.probe(m, LeafOf(steps, m), UrlOf(world, name)))
    case Attributing(_, _, _, _) => AttributingSettles(world, final, closed, name, worker)
    case _ => true
  }

  ghost predicate AttributingSettles(world: World, final: Picks, closed: seq<Name>, name: Name, worker: Worker)
    requires worker.Attributing? && worker.k <= |Members(world, name)|
  {
    var members := Members(world, name);
    && worker.delays == Tested(world, final, name)
    && worker.found == Rows(members, UrlOf(world, name), worker.delays)
                       + LeafRows(StepsOf(world, final), members[..worker.k], worker.delays)
    && (worker.k < |members| ==> OnCourse(world, final, closed, members[worker.k], worker.walk))
  }

  ghost predicate Published(worker: Worker) {
    worker.Closing? || worker.Done?
  }

  ghost function PublishedMarks(workers: seq<Worker>): (r: seq<bool>)
    ensures |r| == |workers|
  {
    seq(|workers|, i requires 0 <= i < |workers| => Published(workers[i]))
  }

  /** A group under test has its first pick; every other group has its final one. */
  ghost predicate PicksSettle(world: World, picks: Picks, final: Picks, s: State)
    requires |s.workers| == |world.order|
  {
    && (forall i :: 0 <= i < |s.workers| ==>
          SamePick(s.picks, if s.workers[i].Testing? then picks else final, world.order[i]))
    && (forall x :: x !in world.order ==> SamePick(s.picks, final, x))
  }

  ghost predicate Settles(world: World, picks: Picks, final: Picks, s: State) {
    && Shape(world, s)
    && |s.workers| == |world.order|
    && (forall i :: 0 <= i < |s.workers| ==> WorkerSettles(world, final, s.closed, world.order[i], s.workers[i]))
    && PicksSettle(world, picks, final, s)
    && multiset(s.results) == Gathered(FinalReports(world, final), PublishedMarks(s.workers))
  }

  lemma ClosedIsDone(world: World, s: State, x: Name) returns (i: nat)
    requires Shape(world, s) && x in s.closed
    ensures i < |world.order| && world.order[i] == x && s.workers[i].Done?
  {
    assert x in multiset(s.closed);
    i := GatheredIsMarked(Singles(world.order), DoneMarks(s.workers), x);
  }

  /** A task past its await has only finished groups below its member. */
  lemma BelowIsClosed(world: World, roots: seq<Name>, picks: Picks, s: State, i: nat, k: nat, x: Name)
    requires Testable(world, roots, picks) && Shape(world, s)
    requires i < |s.workers| && k < |Members(world, world.order[i])|
    requires Passes(world, s, i, Members(world, world.order[i])[k])
    requires x in world.groups && Reaches(GraphOf(world), Members(world, world.order[i])[k], x)
    ensures x in s.closed
  {
    var g := GraphOf(world);
    var m := Members(world, world.order[i])[k];
    if m in world.groups {
      PassedIsClosed(world, roots, picks, s, i, k);
      var closed := set n | n in s.closed;
      forall a, b | a in closed && Edge(g, a, b) ensures b in closed {
        var j := ClosedIsDone(world, s, a);
        GraphEdges(world, a, b);
        var l :| 0 <= l < |Members(world, a)| && Members(world, a)[l] == b;
        assert PastAwait(s.workers[j], l);
        PassedIsClosed(world, roots, picks, s, j, l);
      }
      ClosedHoldsReached(g, closed, m, x);
    } else {
      NodeReachesItself(world, m, x);
    }
  }

  lemma PassedIsClosed(world: World, roots: seq<Name>, picks: Picks, s: State, i: nat, k: nat)
    requires Testable(world, roots, picks) && i < |world.order| && k < |Members(world, world.order[i])|
    requires Members(world, world.order[i])[k] in world.groups
    requires Passes(world, s, i, Members(world, world.order[i])[k])
    ensures Members(world, world.order[i])[k] in s.closed
  {
    var m := Members(world, world.order[i])[k];
    GraphEdges(world, world.order[i], m);
    GroupOrder.AcyclicListsChildrenBefore(GraphOf(world), roots, world.order, i, m);
    var j :| 0 <= j < i && world.order[j] == m;
    IndexOfUnique(world.order, j);
  }

  /** On course, the pick read now is the final one, and the walk stays on course. */
  lemma AdvanceSettles(world: World, picks: Picks, final: Picks, s: State, member: Name, w: Walk)
    requires Settles(world, picks, final, s) && PicksAreMembers(world, final)
    requires OnCourse(world, final, s.closed, member, w)
    ensures Advance(StepsOf(world, s.picks), member, w) == Advance(StepsOf(world, final), member, w)
    ensures match Advance(StepsOf(world, final), member, w)
            case Moving(next) => OnCourse(world, final, s.closed, member, next)
            case Ended(result) => result == LeafOf(StepsOf(world, final), member)
  {
    if w.cur in world.groups {
      ReachesSelf(GraphOf(world), w.cur);
      var i := ClosedIsDone(world, s, w.cur);
      assert SamePick(s.picks, final, w.cur);
    }
    var step := Advance(StepsOf(world, final), member, w);
    if step.Moving? {
      forall x | x in world.groups && Reaches(GraphOf(world), step.walk.cur, x) ensures x in s.closed {
        PickLeadsBelow(world, final, w.cur, x);
      }
    }
  }

  lemma BeginsOnCourse(world: World, roots: seq<Name>, picks: Picks, final: Picks, s: State, i: nat, k: nat)
    requires Testable(world, roots, picks) && Shape(world, s)
    requires i < |s.workers| && k < |Members(world, world.order[i])|
    requires Passes(world, s, i, Members(world, world.order[i])[k])
    ensures var members := Members(world, world.order[i]);
            OnCourse(world, final, s.closed, members[k], BeginAt(members, k))
  {
    forall x | x in world.groups && Reaches(GraphOf(world), Members(world, world.order[i])[k], x)
      ensures x in s.closed
    {
      BelowIsClosed(world, roots, picks, s, i, k, x);
    }
  }

  lemma AwaitSettles(world: World, roots: seq<Name>, picks: Picks, final: Picks, s: State, i: nat, k: nat)
    requires Testable(world, roots, picks)
    requires Settles(world, picks, final, s) && Enabled(world, s, Await(i, k))
    ensures WorkerSettles(world, final, s.closed, world.order[i], Moved(world, s, Await(i, k)))
  {
    assert WorkerSettles(world, final, s.closed, world.order[i], s.workers[i]);
    BeginsOnCourse(world, roots, picks, final, s, i, k);
  }

  lemma ReadSettles(world: World, picks: Picks, final: Picks, s: State, i: nat, k: nat)
    requires PicksAreMembers(world, final)
    requires Settles(world, picks, final, s) && Enabled(world, s, Read(i, k))
    ensures WorkerSettles(world, final, s.closed, world.order[i], Moved(world, s, Read(i, k)))
  {
    assert WorkerSettles(world, final, s.closed, world.order[i], s.workers[i]);
    AdvanceSettles(world, picks, final, s, Members(world, world.order[i])[k], s.workers[i].tasks[k].walk);
  }

  lemma NextBeginsOnCourse(world: World, roots: seq<Name>, picks: Picks, final: Picks, s: State, i: nat, k: nat)
    requires Testable(world, roots, picks) && Shape(world, s)
    requires i < |s.workers| && k < |Members(world, world.order[i])| && PastAwait(s.workers[i], k)
    ensures var members := Members(world, world.order[i]);
            OnCourse(world, final, s.closed, members[k], BeginAt(members, k))
  {
    BeginsOnCourse(world, roots, picks, final, s, i, k);
  }

  lemma SeatSettles(world: World, roots: seq<Name>, picks: Picks, final: Picks, s: State, i: nat)
    requires Testable(world, roots, picks)
    requires Settles(world, picks, final, s) && Enabled(world, s, Seat(i))
    ensures WorkerSettles(world, final, s.closed, world.order[i], Moved(world, s, Seat(i)))
  {
    var members := Members(world, world.order[i]);
    SeatedDelays(world, picks, final, s, i);
    assert members[..0] == [];
    assert WorkerShape(world, world.order[i], s.workers[i]);
    if |members| > 0 {
      NextBeginsOnCourse(world, roots, picks, final, s, i, 0);
    }
  }

  lemma AttributedSettles(world: World, final: Picks, closed: seq<Name>, name: Name, worker: Worker)
    requires worker.Attributing? && worker.k < |Members(world, name)|
    requires AttributingSettles(world, final, closed, name, worker)
    requires var members, k := Members(world, name), worker.k + 1;
             k < |members| ==> OnCourse(world, final, closed, members[k], BeginAt(members, k))
    ensures var members := Members(world, name);
            var leaf := LeafOf(StepsOf(world, final), members[worker.k]);
            AttributingSettles(world, final, closed, name,
              Attributing(worker.found + LeafRow(leaf, worker.delays, members[worker.k]), worker.delays,
                          worker.k + 1, BeginAt(members, worker.k + 1)))
  {
    var members := Members(world, name);
    assert members[..worker.k + 1][..worker.k] == members[..worker.k];
  }

  lemma AttributeSettles(world: World, roots: seq<Name>, picks: Picks, final: Picks, s: State, i: nat)
    requires Testable(world, roots, picks) && PicksAreMembers(world, final)
    requires Settles(world, picks, final, s) && Enabled(world, s, Attribute(i))
    ensures WorkerSettles(world, final, s.closed, world.order[i], Moved(world, s, Attribute(i)))
  {
    var members := Members(world, world.order[i]);
    var worker := s.workers[i];
    assert WorkerSettles(world, final, s.closed, world.order[i], worker);
    AdvanceSettles(world, picks, final, s, members[worker.k], worker.walk);
    if Advance(StepsOf(world, final), members[worker.k], worker.walk).Ended? {
      AttributeEnds(world, roots, picks, final, s, i);
    }
  }

  /** The walk of a member has ended: its leaf is attributed, and the next member's walk begins. */
  lemma AttributeEnds(world: World, roots: seq<Name>, picks: Picks, final: Picks, s: State, i: nat)
    requires Testable(world, roots, picks) && Shape(world, s)
    requires i < |s.workers| && s.workers[i].Attributing? && s.workers[i].k < |Members(world, world.order[i])|
    requires AttributingSettles(world, final, s.closed, world.order[i], s.workers[i])
    ensures var members, worker := Members(world, world.order[i]), s.workers[i];
            var leaf := LeafOf(StepsOf(world, final), members[worker.k]);
            AttributingSettles(world, final, s.closed, world.order[i],
              Attributing(worker.found + LeafRow(leaf, worker.delays, members[worker.k]), worker.delays,
                          worker.k + 1, BeginAt(members, worker.k + 1)))
  {
    var worker := s.workers[i];
    if worker.k + 1 < |Members(world, world.order[i])| {
      assert PastAwait(worker, worker.k + 1);
      NextBeginsOnCourse(world, roots, picks, final, s, i, worker.k + 1);
    }
    AttributedSettles(world, final, s.closed, world.order[i], worker);
  }

  lemma MovedSettles(world: World, roots: seq<Name>, picks: Picks, final: Picks, s: State, a: Action)
    requires Testable(world, roots, picks) && PicksAreMembers(world, final)
    requires Settles(world, picks, final, s) && Enabled(world, s, a)
    ensures WorkerSettles(world, final, s.closed, world.order[a.i], Moved(world, s, a))
  {
    match a
    case Await(i, k) => AwaitSettles(world, roots, picks, final, s, i, k);
    case Read(i, k) => ReadSettles(world, picks, final, s, i, k);
    case Seat(i) => SeatSettles(world, roots, picks, final, s, i);
    case Attribute(i) => AttributeSettles(world, roots, picks, final, s, i);
    case Publish(_) =>
    case Close(_) =>
  }

  lemma MaskedIsTested(world: World, final: Picks, name: Name, delays: Delays)
    requires forall m :: m in Members(world, name) ==> m in delays
    requires forall m :: m in delays ==>
        delays[m] == world.probe(m, LeafOf(StepsOf(world, final), m), UrlOf(world, name))
    ensures Masked(world, UrlOf(world, name), Members(world, name), delays) == Tested(world, final, name)
  {
  }

  lemma SeatedDelays(world: World, picks: Picks, final: Picks, s: State, i: nat)
    requires Settles(world, picks, final, s) && Enabled(world, s, Seat(i))
    ensures var name := world.order[i];
            Masked(world, UrlOf(world, name), Members(world, name), s.workers[i].delays) == Tested(world, final, name)
  {
    var name := world.order[i];
    var tasks, delays := s.workers[i].tasks, s.workers[i].delays;
    assert WorkerSettles(world, final, s.closed, name, s.workers[i]);
    forall m | m in Members(world, name) ensures m in delays {
      var k :| 0 <= k < |Members(world, name)| && Members(world, name)[k] == m;
      assert tasks[k].Measured?;
    }
    MaskedIsTested(world, final, name, delays);
  }

  lemma PicksSettleKept(world: World, picks: Picks, final: Picks, s: State, t: State, i: nat)
    requires |s.workers| == |world.order| && PicksSettle(world, picks, final, s) && i < |s.workers|
    requires |t.workers| == |s.workers| && forall j :: 0 <= j < |s.workers| && j != i ==> t.workers[j] == s.workers[j]
    requires GroupOrder.NoDuplicates(world.order)
    requires forall x :: x != world.order[i] ==> SamePick(s.picks, t.picks, x)
    requires SamePick(t.picks, if t.workers[i].Testing? then picks else final, world.order[i])
    ensures PicksSettle(world, picks, final, t)
  {
    forall j | 0 <= j < |t.workers|
      ensures SamePick(t.picks, if t.workers[j].Testing? then picks else final, world.order[j])
    {
      assert j != i ==> SamePick(s.picks, t.picks, world.order[j]);
      assert SamePick(s.picks, if s.workers[j].Testing? then picks else final, world.order[j]);
    }
    forall x | x !in world.order ensures SamePick(t.picks, final, x) {
      assert SamePick(s.picks, t.picks, x);
    }
  }

  lemma SeatedIsFinal(world: World, roots: seq<Name>, picks: Picks, s: State, i: nat)
    requires Testable(world, roots, picks)
    requires Settles(world, picks, FinalPicks(world, picks), s) && Enabled(world, s, Seat(i))
    ensures SamePick(Do(world, s, Seat(i)).picks, FinalPicks(world, picks), world.order[i])
  {
    var final := FinalPicks(world, picks);
    var name := world.order[i];
    SeatedDelays(world, picks, final, s, i);
    FinalPick(world, roots, picks, name);
    assert name in world.order;
    assert SamePick(s.picks, if s.workers[i].Testing? then picks else final, name);
  }

  lemma StepEffect(world: World, s: State, a: Action)
    requires Enabled(world, s, a)
    ensures Do(world, s, a).workers == s.workers[a.i := Moved(world, s, a)]
    ensures s.closed <= Do(world, s, a).closed
    ensures forall x :: x != world.order[a.i] || !a.Seat? ==> SamePick(s.picks, Do(world, s, a).picks, x)
    ensures !a.Seat? ==> (Moved(world, s, a).Testing? <==> s.workers[a.i].Testing?)
  {
  }

  lemma StepPicksSettle(world: World, roots: seq<Name>, picks: Picks, s: State, a: Action)
    requires Testable(world, roots, picks)
    requires Settles(world, picks, FinalPicks(world, picks), s) && Enabled(world, s, a)
    ensures |Do(world, s, a).workers| == |world.order|
    ensures PicksSettle(world, picks, FinalPicks(world, picks), Do(world, s, a))
  {
    var final, t := FinalPicks(world, picks), Do(world, s, a);
    StepEffect(world, s, a);
    if a.Seat? {
      SeatedIsFinal(world, roots, picks, s, a.i);
    } else {
      assert SamePick(s.picks, if s.workers[a.i].Testing? then picks else final, world.order[a.i]);
      assert SamePick(s.picks, t.picks, world.order[a.i]);
    }
    PicksSettleKept(world, picks, final, s, t, a.i);
  }

  lemma FoundIsReport(world: World, final: Picks, closed: seq<Name>, name: Name, worker: Worker)
    requires name in world.groups && worker.Attributing? && worker.k == |Members(world, name)|
    requires AttributingSettles(world, final, closed, name, worker)
    ensures worker.found == FinalReport(world, final, name)
  {
    assert Members(world, name)[..worker.k] == Members(world, name);
  }

  lemma PublishMarks(world: World, s: State, i: nat)
    requires Enabled(world, s, Publish(i))
    ensures !PublishedMarks(s.workers)[i]
    ensures PublishedMarks(Do(world, s, Publish(i)).workers) == PublishedMarks(s.workers)[i := true]
    ensures Do(world, s, Publish(i)).results == s.results + s.workers[i].found
  {
  }

  lemma PublishReports(world: World, picks: Picks, final: Picks, s: State, i: nat)
    requires Settles(world, picks, final, s) && Enabled(world, s, Publish(i))
    ensures var t := Do(world, s, Publish(i));
            multiset(t.results) == Gathered(FinalReports(world, final), PublishedMarks(t.workers))
  {
    assert WorkerSettles(world, final, s.closed, world.order[i], s.workers[i]);
    FoundIsReport(world, final, s.closed, world.order[i], s.workers[i]);
    PublishMarks(world, s, i);
    MarkOne(FinalReports(world, final), PublishedMarks(s.workers), i);
  }

  lemma OthersStayUnpublished(world: World, s: State, a: Action)
    requires Enabled(world, s, a) && !a.Publish?
    ensures Do(world, s, a).results == s.results
    ensures PublishedMarks(Do(world, s, a).workers) == PublishedMarks(s.workers)
  {
    assert Published(Moved(world, s, a)) <==> Published(s.workers[a.i]);
    assert Do(world, s, a).workers == s.workers[a.i := Moved(world, s, a)];
  }

  lemma StepReports(world: World, picks: Picks, final: Picks, s: State, a: Action)
    requires Settles(world, picks, final, s) && Enabled(world, s, a)
    ensures |Do(world, s, a).workers| == |world.order|
    ensures multiset(Do(world, s, a).results)
         == Gathered(FinalReports(world, final), PublishedMarks(Do(world, s, a).workers))
  {
    if a.Publish? {
      PublishReports(world, picks, final, s, a.i);
    } else {
      OthersStayUnpublished(world, s, a);
    }
  }

  lemma SettlesKept(world: World, final: Picks, s: State, t: State, i: nat, worker: Worker)
    requires Shape(world, s) && i < |s.workers|
    requires forall j :: 0 <= j < |s.workers| ==> WorkerSettles(world, final, s.closed, world.order[j], s.workers[j])
    requires WorkerSettles(world, final, s.closed, world.order[i], worker)
    requires t.workers == s.workers[i := worker] && s.closed <= t.closed
    ensures forall j :: 0 <= j < |t.workers| ==> WorkerSettles(world, final, t.closed, world.order[j], t.workers[j])
  {
    forall j | 0 <= j < |t.workers|
      ensures WorkerSettles(world, final, t.closed, world.order[j], t.workers[j])
    {
      assert WorkerSettles(world, final, s.closed, world.order[j], t.workers[j]);
    }
  }

  lemma StepSettles(world: World, roots: seq<Name>, picks: Picks, s: State, a: Action)
    requires Testable(world, roots, picks)
    requires Settles(world, picks, FinalPicks(world, picks), s) && Enabled(world, s, a)
    ensures Settles(world, picks, FinalPicks(world, picks), Do(world, s, a))
  {
    var final := FinalPicks(world, picks);
    ReseatedPicksAreMembers(world, picks, |world.order|);
    MovedSettles(world, roots, picks, final, s, a);
    StepPicksSettle(world, roots, picks, s, a);
    StepReports(world, picks, final, s, a);
    StepShape(world, s, a);
    StepEffect(world, s, a);
    SettlesKept(world, final, s, Do(world, s, a), a.i, Moved(world, s, a));
  }

  lemma FirstWorkerSettles(world: World, final: Picks, name: Name)
    ensures WorkerSettles(world, final, [], name, FirstWorker(world, name))
  {
  }

  lemma FirstPicksSettle(world: World, roots: seq<Name>, picks: Picks)
    requires Testable(world, roots, picks)
    ensures PicksSettle(world, picks, FinalPicks(world, picks), Init(world, picks))
  {
    var s := Init(world, picks);
    var final := FinalPicks(world, picks);
    forall x | x !in world.order || x !in world.groups ensures SamePick(s.picks, final, x) {
      FinalPick(world, roots, picks, x);
    }
    forall i | 0 <= i < |s.workers|
      ensures SamePick(s.picks, if s.workers[i].Testing? then picks else final, world.order[i])
    {
      assert s.workers[i] == FirstWorker(world, world.order[i]);
    }
  }

  lemma InitSettles(world: World, roots: seq<Name>, picks: Picks)
    requires Testable(world, roots, picks)
    ensures Settles(world, picks, FinalPicks(world, picks), Init(world, picks))
  {
    var s := Init(world, picks);
    var final := FinalPicks(world, picks);
    InitShape(world, picks);
    NoneMarked(FinalReports(world, final), PublishedMarks(s.workers));
    FirstPicksSettle(world, roots, picks);
    forall i | 0 <= i < |s.workers| ensures WorkerSettles(world, final, s.closed, world.order[i], s.workers[i]) {
      FirstWorkerSettles(world, final, world.order[i]);
    }
  }

  lemma {:induction false} RunSettles(world: World, roots: seq<Name>, picks: Picks, run: seq<State>)
    requires Testable(world, roots, picks) && IsRun(world, picks, run)
    ensures Settles(world, picks, FinalPicks(world, picks), run[|run| - 1])
  {
    if |run| == 1 {
      InitSettles(world, roots, picks);
    } else {
      RunSettles(world, roots, picks, run[..|run| - 1]);
      assert Follows(world, run[|run| - 2], run[|run| - 1]);
      var a :| Enabled(world, run[|run| - 2], a) && run[|run| - 1] == Do(world, run[|run| - 2], a);
      StepSettles(world, roots, picks, run[|run| - 2], a);
    }
  }

  /** On an acyclic group graph every finished run, however interleaved, leaves the
      picks and the reported delays that testing the groups one by one leaves. */
  lemma EveryInterleavingAgrees(world: World, roots: seq<Name>, picks: Picks, run: seq<State>)
    requires Testable(world, roots, picks)
    requires IsRun(world, picks, run) && AllDone(run[|run| - 1])
    ensures run[|run| - 1].picks == FinalPicks(world, picks)
    ensures multiset(run[|run| - 1].results) == multiset(FinalResults(world, picks))
  {
    var s := run[|run| - 1];
    var final := FinalPicks(world, picks);
    RunSettles(world, roots, picks, run);
    SettledPicks(world, picks, final, s);
    AllMarked(FinalReports(world, final), PublishedMarks(s.workers));
    SequentialReports(world, roots, picks);
  }

  lemma SettledPicks(world: World, picks: Picks, final: Picks, s: State)
    requires |s.workers| == |world.order| && PicksSettle(world, picks, final, s) && AllDone(s)
    ensures s.picks == final
  {
    forall x ensures SamePick(s.picks, final, x) {
      if x in world.order {
        var i :| 0 <= i < |world.order| && world.order[i] == x;
        assert s.workers[i].Done?;
      }
    }
    forall x ensures x in s.picks <==> x in final {
      assert SamePick(s.picks, final, x);
    }
    assert s.picks.Keys == final.Keys;
    forall x | x in s.picks ensures s.picks[x] == final[x] {
      assert SamePick(s.picks, final, x);
    }
  }
}
