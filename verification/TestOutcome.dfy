/** What a finished group test has picked and reported, in terms of the groups, the
    iteration of the picks and the probes alone. */
module TestOutcome {

  import opened Options
  import opened Graphs
  import opened GroupPick
  import opened GroupRun
  import opened GroupTest
  import GroupOrder
  import opened Gathering

  // ----- What a member resolves to, and its delay

  /** A group's own test URL, or the default one. */
  ghost predicate IsUrl(world: World, name: Name, url: Url) {
    name in world.groups
    && url == if world.groups[name].testUrl != "" then world.groups[name].testUrl else world.defaultUrl
  }

  /** The step of every group: its pick, empty if it has none, and its URL. */
  ghost predicate AreSteps(world: World, picks: Picks, steps: Steps) {
    && steps.Keys == world.groups.Keys
    && forall n :: n in steps ==>
         steps[n].now == (if n in picks then picks[n] else "") && IsUrl(world, n, steps[n].url)
  }

  /** Iterating the picks from a group lands on a node, with the last group's URL. */
  ghost predicate LandsAt(steps: Steps, name: Name, a: Arrival) {
    exists k: nat :: k > 0 && Lands(steps, name, k) && LastStep(steps, name, k, a)
  }

  ghost predicate LastStep(steps: Steps, name: Name, k: nat, a: Arrival)
    requires k > 0 && Lands(steps, name, k)
  {
    && a.leaf == After(steps, name, k)
    && Travels(steps, name, k - 1) && After(steps, name, k - 1) in steps
    && a.url == steps[After(steps, name, k - 1)].url
  }

  ghost predicate Resolves(steps: Steps, name: Name, leaf: Option<Arrival>) {
    match leaf
    case Some(a) => LandsAt(steps, name, a)
    case None => name !in steps || forall k: nat :: !Lands(steps, name, k)
  }

  lemma ResolvesToLeaf(steps: Steps, name: Name, leaf: Option<Arrival>)
    ensures Resolves(steps, name, leaf) <==> LeafOf(steps, name) == leaf
  {
    LeafFindsTheLanding(steps, name);
    if name in steps {
      assert !Lands(steps, name, 0);
      if leaf.Some? && LeafOf(steps, name) == leaf {
        var k: nat :| Lands(steps, name, k);
        assert k > 0;
        assert LeafOf(steps, name) == Some(Arrival(After(steps, name, k), steps[After(steps, name, k - 1)].url));
        assert LastStep(steps, name, k, leaf.value);
      }
    } else {
      assert Lands(steps, name, 0);
      forall k: nat | k > 0 ensures !Lands(steps, name, k) {}
    }
  }

  /** Each member's delay: the probe's answer where the picks lead from it, or -1 if it is not alive. */
  ghost predicate AreDelays(world: World, steps: Steps, name: Name, url: Url, delays: Delays) {
    && name in world.groups
    && (forall m :: m in delays <==> m in world.groups[name].members)
    && forall m, leaf :: m in delays && Resolves(steps, m, leaf) ==>
         delays[m] == if world.alive(m, url) then world.probe(m, leaf, url) else -1
  }

  lemma StepsAreThese(world: World, picks: Picks, steps: Steps)
    requires AreSteps(world, picks, steps)
    ensures steps == StepsOf(world, picks)
  {
  }

  lemma DelaysAreTested(world: World, picks: Picks, steps: Steps, name: Name, url: Url, delays: Delays)
    requires AreSteps(world, picks, steps) && IsUrl(world, name, url) && AreDelays(world, steps, name, url, delays)
    ensures delays == Tested(world, picks, name)
  {
    StepsAreThese(world, picks, steps);
    assert delays.Keys == Tested(world, picks, name).Keys;
    forall m | m in delays ensures delays[m] == Tested(world, picks, name)[m] {
      ResolvesToLeaf(steps, m, LeafOf(steps, m));
    }
  }

  // ----- The picks

  /** A group ends as it began: on the same pick, or still on none. */
  ghost predicate KeepsPick(before: Picks, after: Picks, name: Name) {
    && (name in before ==> name in after && after[name] == before[name])
    && (name !in before && name in after ==> after[name] == "")
  }

  ghost predicate Finished(world: World, roots: seq<Name>, picks: Picks, run: seq<State>, steps: Steps) {
    && Testable(world, roots, picks) && IsRun(world, picks, run)
    && AllDone(run[|run| - 1]) && AreSteps(world, run[|run| - 1].picks, steps)
  }

  /** A finished test leaves an unpinned url-test group that it reached on the first of
      its fastest members, measured under the picks that the test leaves. */
  lemma UnpinnedEndOnFastest(
    world: World, roots: seq<Name>, picks: Picks, run: seq<State>, steps: Steps,
    name: Name, url: Url, delays: Delays, k: nat)
    requires Finished(world, roots, picks, run, steps)
    requires name in world.order && IsUrl(world, name, url) && AreDelays(world, steps, name, url, delays)
    requires world.groups[name].urlTest && !world.groups[name].pinned
    requires FirstFastest(world.groups[name].members, delays, k) && world.groups[name].members[k] != ""
    ensures name in run[|run| - 1].picks && run[|run| - 1].picks[name] == world.groups[name].members[k]
  {
    EveryInterleavingAgrees(world, roots, picks, run);
    FinalPick(world, roots, picks, name);
    DelaysAreTested(world, run[|run| - 1].picks, steps, name, url, delays);
    FirstFastestLeads(world.groups[name].members, delays, k);
  }

  /** Every other group keeps its pick: one that is pinned, is not url-test, was not
      reached, or has no member that answered. */
  lemma OthersKeepTheirPick(
    world: World, roots: seq<Name>, picks: Picks, run: seq<State>, steps: Steps,
    name: Name, url: Url, delays: Delays)
    requires Finished(world, roots, picks, run, steps)
    requires name in world.groups ==> IsUrl(world, name, url) && AreDelays(world, steps, name, url, delays)
    requires name in world.groups && name in world.order && world.groups[name].urlTest ==>
        world.groups[name].pinned || forall m :: m in delays ==> delays[m] <= 0
    ensures KeepsPick(picks, run[|run| - 1].picks, name)
  {
    EveryInterleavingAgrees(world, roots, picks, run);
    FinalPick(world, roots, picks, name);
    if name in world.order && name in world.groups {
      DelaysAreTested(world, run[|run| - 1].picks, steps, name, url, delays);
      LeaderIsAMember(world.groups[name].members, delays);
    }
  }

  // ----- The rows

  ghost predicate IsLanding(steps: Steps, name: Name) {
    exists a :: LandsAt(steps, name, a)
  }

  /** How many of the first n members land on a node. */
  ghost function Landings(steps: Steps, members: seq<Name>, n: nat): nat
    requires n <= |members|
  {
    if n == 0 then 0 else
    Landings(steps, members, n - 1) + if IsLanding(steps, members[n - 1]) then 1 else 0
  }

  /** A group's report: a row for each member under the group's URL, then one for the
      node that each landing member lands on, under the last group's URL, each with the
      member's delay. */
  ghost predicate IsReport(world: World, steps: Steps, name: Name, report: seq<GroupDelay>) {
    if name !in world.groups then report == []
    else exists url, delays :: IsUrl(world, name, url) && AreDelays(world, steps, name, url, delays)
                               && AreRows(steps, world.groups[name].members, url, delays, report)
  }

  ghost predicate AreRows(steps: Steps, members: seq<Name>, url: Url, delays: Delays, report: seq<GroupDelay>) {
    var n := |members|;
    && (forall m :: m in members ==> m in delays)
    && |report| == n + Landings(steps, members, n)
    && (forall j :: 0 <= j < n ==> report[j] == GroupDelay(members[j], url, delays[members[j]]))
    && forall j, a :: 0 <= j < n && LandsAt(steps, members[j], a) ==>
         LandingRow(steps, members, delays, j, a, report)
  }

  ghost predicate LandingRow(
    steps: Steps, members: seq<Name>, delays: Delays, j: nat, a: Arrival, report: seq<GroupDelay>)
    requires j < |members| && members[j] in delays
  {
    var at := |members| + Landings(steps, members, j);
    at < |report| && report[at] == GroupDelay(a.leaf, a.url, delays[members[j]])
  }

  lemma {:induction false} LeafRowsCounted(steps: Steps, members: seq<Name>, delays: Delays, n: nat)
    requires n <= |members|
    ensures |LeafRows(steps, members[..n], delays)| == Landings(steps, members, n)
  {
    if n > 0 {
      LeafRowsCounted(steps, members, delays, n - 1);
      LandingHasLeaf(steps, members[n - 1]);
      assert members[..n][..n - 1] == members[..n - 1];
    }
  }

  lemma LandingHasLeaf(steps: Steps, name: Name)
    ensures IsLanding(steps, name) <==> LeafOf(steps, name).Some?
    ensures forall a :: LandsAt(steps, name, a) ==> LeafOf(steps, name) == Some(a)
    ensures LeafOf(steps, name).Some? ==> LandsAt(steps, name, LeafOf(steps, name).value)
  {
    ResolvesToLeaf(steps, name, LeafOf(steps, name));
    forall a | LandsAt(steps, name, a) ensures LeafOf(steps, name) == Some(a) {
      ResolvesToLeaf(steps, name, Some(a));
    }
  }

  lemma {:induction false} LeafRowAt(steps: Steps, members: seq<Name>, delays: Delays, n: nat, j: nat, a: Arrival)
    requires j < n <= |members| && LandsAt(steps, members[j], a)
    ensures var rows, at := LeafRows(steps, members[..n], delays), Landings(steps, members, j);
            at < |rows| && rows[at] == GroupDelay(a.leaf, a.url, DelayOf(delays, members[j]))
  {
    assert members[..n][..n - 1] == members[..n - 1];
    if j < n - 1 {
      LeafRowAt(steps, members, delays, n - 1, j, a);
    } else {
      LeafRowsCounted(steps, members, delays, n - 1);
      LandingHasLeaf(steps, members[j]);
    }
  }

  /** Each place after the members' rows belongs to a landing member. */
  lemma {:induction false} LandingAt(steps: Steps, members: seq<Name>, n: nat, r: nat) returns (j: nat, a: Arrival)
    requires n <= |members| && r < Landings(steps, members, n)
    ensures j < n && Landings(steps, members, j) == r && LandsAt(steps, members[j], a)
  {
    if r < Landings(steps, members, n - 1) {
      j, a := LandingAt(steps, members, n - 1, r);
    } else {
      j := n - 1;
      a :| LandsAt(steps, members[n - 1], a);
    }
  }

  lemma ReportIsThis(world: World, picks: Picks, steps: Steps, name: Name, report: seq<GroupDelay>)
    requires AreSteps(world, picks, steps) && IsReport(world, steps, name, report)
    ensures report == FinalReport(world, picks, name)
  {
    if name in world.groups {
      var url, delays :| IsUrl(world, name, url) && AreDelays(world, steps, name, url, delays)
                         && AreRows(steps, world.groups[name].members, url, delays, report);
      StepsAreThese(world, picks, steps);
      DelaysAreTested(world, picks, steps, name, url, delays);
      RowsAreThese(steps, world.groups[name].members, url, delays, report);
    }
  }

  lemma RowsAreThese(steps: Steps, members: seq<Name>, url: Url, delays: Delays, report: seq<GroupDelay>)
    requires AreRows(steps, members, url, delays, report)
    ensures report == Rows(members, url, delays) + LeafRows(steps, members, delays)
  {
    var leaves := LeafRows(steps, members, delays);
    assert members[..|members|] == members;
    LeafRowsCounted(steps, members, delays, |members|);
    forall r | 0 <= r < |leaves| ensures report[|members| + r] == leaves[r] {
      var j, a := LandingAt(steps, members, |members|, r);
      assert LandingRow(steps, members, delays, j, a, report);
      LeafRowAt(steps, members, delays, |members|, j, a);
    }
    assert report[..|members|] == Rows(members, url, delays);
    assert report[|members|..] == leaves;
  }

  lemma TheseAreRows(steps: Steps, members: seq<Name>, url: Url, delays: Delays)
    requires forall m :: m in members ==> m in delays
    ensures AreRows(steps, members, url, delays, Rows(members, url, delays) + LeafRows(steps, members, delays))
  {
    assert members[..|members|] == members;
    LeafRowsCounted(steps, members, delays, |members|);
    forall j, a | 0 <= j < |members| && LandsAt(steps, members[j], a)
      ensures LandingRow(steps, members, delays, j, a, Rows(members, url, delays) + LeafRows(steps, members, delays))
    {
      LeafRowAt(steps, members, delays, |members|, j, a);
    }
  }

  /** Under any picks there is exactly one such report of each group. */
  lemma EveryGroupHasAReport(world: World, picks: Picks, steps: Steps, name: Name) returns (report: seq<GroupDelay>)
    requires AreSteps(world, picks, steps)
    ensures IsReport(world, steps, name, report)
    ensures forall other :: IsReport(world, steps, name, other) ==> other == report
  {
    report := FinalReport(world, picks, name);
    if name in world.groups {
      StepsAreThese(world, picks, steps);
      var url, delays := UrlOf(world, name), Tested(world, picks, name);
      forall m, leaf | m in delays && Resolves(steps, m, leaf) ensures LeafOf(steps, m) == leaf {
        ResolvesToLeaf(steps, m, leaf);
      }
      assert AreDelays(world, steps, name, url, delays);
      TheseAreRows(steps, world.groups[name].members, url, delays);
    }
    forall other | IsReport(world, steps, name, other) ensures other == report {
      ReportIsThis(world, picks, steps, name, other);
    }
  }

  /** A finished test has reported exactly the rows of the groups that it reached: as
      multisets the results are the reports of all groups of the order. */
  lemma ResultsAreTheReports(
    world: World, roots: seq<Name>, picks: Picks, run: seq<State>, steps: Steps, reports: seq<seq<GroupDelay>>)
    requires Finished(world, roots, picks, run, steps)
    requires |reports| == |world.order|
    requires forall i :: 0 <= i < |reports| ==> IsReport(world, steps, world.order[i], reports[i])
    ensures multiset(run[|run| - 1].results) == Sum(Counted(reports))
  {
    EveryInterleavingAgrees(world, roots, picks, run);
    SequentialReports(world, roots, picks);
    var final := run[|run| - 1].picks;
    forall i | 0 <= i < |reports| ensures reports[i] == FinalReport(world, final, world.order[i]) {
      ReportIsThis(world, final, steps, world.order[i], reports[i]);
    }
    assert Counted(reports) == FinalReports(world, final);
  }

  ghost function Counted(reports: seq<seq<GroupDelay>>): seq<multiset<GroupDelay>> {
    seq(|reports|, i requires 0 <= i < |reports| => multiset(reports[i]))
  }
}
