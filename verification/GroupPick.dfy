/** Picking in a tested group: the fastest member, seating it, and following picks to the node. */
module GroupPick {

  import opened Options
  import opened Graphs

  // ----- Fastest

  type Delays = map<Name, int>

  /** The source's map lookup: a member without a delay counts as zero, a failure. */
  function DelayOf(delays: Delays, name: Name): int {
    if name in delays then delays[name] else 0
  }

  /** Member k has the least positive delay, and no earlier member has the same. */
  ghost predicate FirstFastest(members: seq<Name>, delays: Delays, k: int) {
    && 0 <= k < |members|
    && 0 < DelayOf(delays, members[k])
    && (forall j :: 0 <= j < k && 0 < DelayOf(delays, members[j]) ==>
          DelayOf(delays, members[k]) < DelayOf(delays, members[j]))
    && (forall j :: k < j < |members| && 0 < DelayOf(delays, members[j]) ==>
          DelayOf(delays, members[k]) <= DelayOf(delays, members[j]))
  }

  /** What the documentation promises of an answer: the first fastest member, or false if all failed. */
  ghost predicate AnswersFastest(members: seq<Name>, delays: Delays, best: Name, ok: bool) {
    && (ok <==> exists j :: 0 <= j < |members| && 0 < DelayOf(delays, members[j]))
    && (ok ==> exists k :: FirstFastest(members, delays, k) && members[k] == best)
  }

  /** The member that leads after a left-to-right pass; an empty name stands for "none yet". */
  function Leader(members: seq<Name>, delays: Delays): (Name, int) {
    if members == [] then ("", 0) else
    var last := |members| - 1;
    var (best, bestDelay) := Leader(members[..last], delays);
    var d := DelayOf(delays, members[last]);
    if d > 0 && (best == "" || d < bestDelay) then (members[last], d) else (best, bestDelay)
  }

  function FastestOf(members: seq<Name>, delays: Delays): Name {
    Leader(members, delays).0
  }

  method Fastest(members: seq<Name>, delays: Delays) returns (best: Name, ok: bool)
    ensures best == FastestOf(members, delays) && ok == (best != "")
    ensures "" !in members ==> AnswersFastest(members, delays, best, ok)
  {
    var bestDelay := 0;
    best := "";
    for i := 0 to |members|
      invariant (best, bestDelay) == Leader(members[..i], delays)
    {
      var d := DelayOf(delays, members[i]);
      assert members[..i + 1][..i] == members[..i];
      if d > 0 && (best == "" || d < bestDelay) {
        best, bestDelay := members[i], d;
      }
    }
    assert members[..|members|] == members;
    ok := best != "";
    FastestExactly(members, delays);
  }

  lemma {:induction false} LeaderIsAMember(members: seq<Name>, delays: Delays)
    ensures var (best, bestDelay) := Leader(members, delays);
            best != "" ==> best in members && DelayOf(delays, best) == bestDelay > 0
  {
    if members != [] {
      LeaderIsAMember(members[..|members| - 1], delays);
    }
  }

  lemma {:induction false} FirstFastestLeads(members: seq<Name>, delays: Delays, k: int)
    requires FirstFastest(members, delays, k) && members[k] != ""
    ensures Leader(members, delays) == (members[k], DelayOf(delays, members[k]))
  {
    var last := |members| - 1;
    var front := members[..last];
    if k < last {
      forall j | 0 <= j < last ensures front[j] == members[j] {}
      FirstFastestLeads(front, delays, k);
    } else {
      LeaderIsAMember(front, delays);
      var best := Leader(front, delays).0;
      if best != "" {
        var j :| 0 <= j < last && front[j] == best;
        assert members[j] == best;
      }
    }
  }

  lemma {:induction false} SomeFirstFastest(members: seq<Name>, delays: Delays, j: nat) returns (k: nat)
    requires j < |members| && 0 < DelayOf(delays, members[j])
    ensures FirstFastest(members, delays, k)
  {
    k := j;
    for i := 0 to |members|
      invariant k < |members| && 0 < DelayOf(delays, members[k])
      invariant forall m :: 0 <= m < i && 0 < DelayOf(delays, members[m]) ==>
          DelayOf(delays, members[k]) < DelayOf(delays, members[m])
          || (DelayOf(delays, members[k]) == DelayOf(delays, members[m]) && k <= m)
    {
      var d, best := DelayOf(delays, members[i]), DelayOf(delays, members[k]);
      if 0 < d && (d < best || (d == best && i < k)) {
        k := i;
      }
    }
  }

  /** The empty name is "none yet" in the loop, so Fastest keeps its promise
      exactly when the first fastest member is not one with an empty name. */
  lemma FastestExactly(members: seq<Name>, delays: Delays)
    ensures var best := FastestOf(members, delays);
            AnswersFastest(members, delays, best, best != "")
            <==> !exists k :: FirstFastest(members, delays, k) && members[k] == ""
  {
    var best := FastestOf(members, delays);
    if j :| 0 <= j < |members| && 0 < DelayOf(delays, members[j]) {
      var k := SomeFirstFastest(members, delays, j);
      if members[k] != "" {
        FirstFastestLeads(members, delays, k);
      }
    } else {
      LeaderIsAMember(members, delays);
    }
  }

  /** A fastest member with an empty name loses to a slower one. */
  lemma FastestLosesEmptyName()
    ensures var members, delays := ["", "b"], map["" := 1, "b" := 2];
            FastestOf(members, delays) == "b" && !AnswersFastest(members, delays, "b", true)
  {
    var members, delays := ["", "b"], map["" := 1, "b" := 2];
    assert members[..1] == [""] && members[..1][..0] == [];
    assert Leader(members[..1], delays) == ("", 1);
    assert FirstFastest(members, delays, 0) && members[0] == "";
    FastestExactly(members, delays);
  }

  // ----- Seat

  /** The part of mihomo's url-test group that seating uses: a pin is adopted as
      the pick only when the group is read, and without one the last pick stays. */
  class UrlTest {
    var fixed: Name
    var pick: Name

    constructor (pick: Name)
      ensures this.pick == pick && fixed == ""
    {
      this.pick, fixed := pick, "";
    }

    method ForceSet(name: Name)
      modifies this`fixed
      ensures fixed == name
    {
      fixed := name;
    }

    method Now() returns (now: Name)
      modifies this`pick
      ensures now == pick == if fixed != "" then fixed else old(pick)
    {
      if fixed != "" {
        pick := fixed;
      }
      now := pick;
    }
  }

  /** name becomes the pick and the group is left unpinned. */
  method Seat(g: UrlTest, name: Name)
    modifies g
    ensures g.fixed == ""
    ensures g.pick == if name != "" then name else old(g.pick)
  {
    g.ForceSet(name);
    var _ := g.Now();
    g.ForceSet("");
  }

  // ----- Leaf

  /** A group's current pick and test URL; a name without a step is a plain node. */
  datatype Step = Step(now: Name, url: string)
  type Steps = map<Name, Step>

  datatype Arrival = Arrival(leaf: Name, url: string)

  /** A walk down the picks: where it is, the URL of the group it came from, the groups it left. */
  datatype Walk = Walk(cur: Name, url: string, seen: set<Name>)
  datatype Progress = Moving(walk: Walk) | Ended(result: Option<Arrival>)

  function Begin(name: Name): Walk {
    Walk(name, "", {})
  }

  /** One round of the loop in Leaf: it reads the pick of one group. */
  function Advance(steps: Steps, name: Name, w: Walk): Progress {
    if w.cur !in steps then
      Ended(if w.cur != name then Some(Arrival(w.cur, w.url)) else None)
    else if steps[w.cur].now == "" || w.cur in w.seen then
      Ended(None)
    else
      Moving(Walk(steps[w.cur].now, steps[w.cur].url, w.seen + {w.cur}))
  }

  ghost function Follow(steps: Steps, name: Name, w: Walk): Option<Arrival>
    decreases steps.Keys - w.seen
  {
    match Advance(steps, name, w)
    case Moving(next) => Follow(steps, name, next)
    case Ended(result) => result
  }

  ghost function LeafOf(steps: Steps, name: Name): Option<Arrival> {
    Follow(steps, name, Begin(name))
  }

  method Leaf(name: Name, steps: Steps) returns (leaf: Name, url: string, ok: bool)
    ensures LeafOf(steps, name) == if ok then Some(Arrival(leaf, url)) else None
    ensures !ok ==> url == "" && leaf == if name in steps then "" else name
  {
    var seen: set<Name> := {};
    leaf, url := name, "";
    while true
      invariant Follow(steps, name, Walk(leaf, url, seen)) == LeafOf(steps, name)
      invariant name in steps || (leaf == name && url == "")
      decreases steps.Keys - seen
    {
      if leaf !in steps {
        return leaf, url, leaf != name;
      }
      var step := steps[leaf];
      if step.now == "" || leaf in seen {
        return "", "", false;
      }
      seen := seen + {leaf};
      leaf, url := step.now, step.url;
    }
  }

  /** Plain iteration of the pick function: k picks in a row, all of groups that have one. */
  ghost predicate Travels(steps: Steps, name: Name, k: nat)
    decreases k
  {
    k == 0 || (name in steps && steps[name].now != "" && Travels(steps, steps[name].now, k - 1))
  }

  ghost function After(steps: Steps, name: Name, k: nat): Name
    requires Travels(steps, name, k)
    decreases k
  {
    if k == 0 then name else After(steps, steps[name].now, k - 1)
  }

  /** After exactly k picks the iteration leaves the groups. */
  ghost predicate Lands(steps: Steps, name: Name, k: nat) {
    Travels(steps, name, k) && After(steps, name, k) !in steps
  }

  /** The iteration is among the groups after every number of picks. */
  ghost predicate NeverLeaves(steps: Steps, name: Name) {
    forall k: nat :: Travels(steps, name, k) && After(steps, name, k) in steps
  }

  /** The iteration meets a group without a single pick. */
  ghost predicate MeetsNoPick(steps: Steps, name: Name) {
    exists k: nat :: Travels(steps, name, k) && After(steps, name, k) in steps
                     && steps[After(steps, name, k)].now == ""
  }

  lemma {:induction false} TravelsOn(steps: Steps, name: Name, k: nat)
    requires Travels(steps, name, k)
    ensures var n := After(steps, name, k);
            (n in steps && steps[n].now != "" <==> Travels(steps, name, k + 1))
            && (Travels(steps, name, k + 1) ==> After(steps, name, k + 1) == steps[n].now)
    decreases k
  {
    if k > 0 {
      TravelsOn(steps, steps[name].now, k - 1);
    }
  }

  lemma {:induction false} LandsOnce(steps: Steps, name: Name, k: nat, m: nat)
    requires Lands(steps, name, k) && Lands(steps, name, m)
    ensures k == m
    decreases k
  {
    if k > 0 && m > 0 {
      LandsOnce(steps, steps[name].now, k - 1, m - 1);
    }
  }

  /** The arrival a landing gives: its node, and the URL of the last group before it. */
  ghost function ArrivalAfter(steps: Steps, name: Name, url: string, k: nat): Arrival
    requires Travels(steps, name, k)
    decreases k
  {
    if k == 0 then Arrival(name, url) else ArrivalAfter(steps, steps[name].now, steps[name].url, k - 1)
  }

  lemma {:induction false} ArrivalIsLastStep(steps: Steps, name: Name, url: string, k: nat)
    requires Travels(steps, name, k)
    ensures ArrivalAfter(steps, name, url, k).leaf == After(steps, name, k)
    ensures k > 0 ==> Travels(steps, name, k - 1) && After(steps, name, k - 1) in steps
                      && ArrivalAfter(steps, name, url, k).url == steps[After(steps, name, k - 1)].url
    decreases k
  {
    if k > 0 {
      ArrivalIsLastStep(steps, steps[name].now, steps[name].url, k - 1);
    }
  }

  /** A walk that will land is never stopped by its own trail: what it has left lies farther out. */
  lemma {:induction false} LandingIsFollowed(steps: Steps, name: Name, w: Walk, k: nat)
    requires Lands(steps, w.cur, k) && (w.cur !in steps ==> w.cur != name)
    requires name in steps
    requires forall x :: x in w.seen ==> exists d: nat :: d > k && Lands(steps, x, d)
    ensures Follow(steps, name, w) == Some(ArrivalAfter(steps, w.cur, w.url, k))
    decreases k
  {
    if k > 0 {
      if w.cur in w.seen {
        var d: nat :| d > k && Lands(steps, w.cur, d);
        LandsOnce(steps, w.cur, k, d);
      }
      var next := Walk(steps[w.cur].now, steps[w.cur].url, w.seen + {w.cur});
      assert Advance(steps, name, w) == Moving(next);
      forall x | x in next.seen ensures exists d: nat :: d > k - 1 && Lands(steps, x, d) {
        if x == w.cur {
          assert k > k - 1 && Lands(steps, x, k);
        }
      }
      LandingIsFollowed(steps, name, next, k - 1);
    }
  }

  lemma {:induction false} FollowedLands(steps: Steps, name: Name, w: Walk) returns (k: nat)
    requires Follow(steps, name, w).Some?
    ensures Lands(steps, w.cur, k)
    decreases steps.Keys - w.seen
  {
    k := 0;
    if Advance(steps, name, w).Moving? {
      k := FollowedLands(steps, name, Advance(steps, name, w).walk);
      k := k + 1;
    }
  }

  /** Leaf against plain iteration: it succeeds exactly when the iteration from a
      group lands on a node, and gives that node with the last group's URL. */
  lemma LeafFindsTheLanding(steps: Steps, name: Name)
    ensures LeafOf(steps, name).Some? <==> name in steps && exists k: nat :: Lands(steps, name, k)
    ensures forall k: nat :: k > 0 && Lands(steps, name, k) ==>
        Travels(steps, name, k - 1) && After(steps, name, k - 1) in steps
        && LeafOf(steps, name) == Some(Arrival(After(steps, name, k), steps[After(steps, name, k - 1)].url))
  {
    if LeafOf(steps, name).Some? {
      var k := FollowedLands(steps, name, Begin(name));
    }
    forall k: nat | Lands(steps, name, k) && name in steps
      ensures LeafOf(steps, name) == Some(ArrivalAfter(steps, name, "", k))
    {
      LandingIsFollowed(steps, name, Begin(name), k);
    }
    forall k: nat | k > 0 && Lands(steps, name, k)
      ensures Travels(steps, name, k - 1) && After(steps, name, k - 1) in steps
      ensures LeafOf(steps, name) == Some(Arrival(After(steps, name, k), steps[After(steps, name, k - 1)].url))
    {
      ArrivalIsLastStep(steps, name, "", k);
    }
  }

  /** On a group, Leaf fails exactly when the iteration meets a group without a
      pick or stays among the groups forever. */
  lemma LeafFailsExactly(steps: Steps, name: Name)
    requires name in steps
    ensures LeafOf(steps, name).None? <==> MeetsNoPick(steps, name) || NeverLeaves(steps, name)
  {
    LeafFindsTheLanding(steps, name);
    if LeafOf(steps, name).None? && !MeetsNoPick(steps, name) {
      forall k: nat ensures Travels(steps, name, k) && After(steps, name, k) in steps {
        TravelsUnlessLanding(steps, name, k);
      }
    }
    if k: nat :| Lands(steps, name, k) {
      if m: nat :| Travels(steps, name, m) && After(steps, name, m) in steps && steps[After(steps, name, m)].now == "" {
        LandingMeetsPicks(steps, name, k, m);
      }
    }
  }

  lemma {:induction false} TravelsUnlessLanding(steps: Steps, name: Name, k: nat)
    requires !MeetsNoPick(steps, name)
    requires !exists m: nat :: Lands(steps, name, m)
    ensures Travels(steps, name, k) && After(steps, name, k) in steps
  {
    if k == 0 {
      assert !Lands(steps, name, 0);
    } else {
      TravelsUnlessLanding(steps, name, k - 1);
      TravelsOn(steps, name, k - 1);
      assert !Lands(steps, name, k);
    }
  }

  lemma {:induction false} LandingMeetsPicks(steps: Steps, name: Name, k: nat, m: nat)
    requires Lands(steps, name, k) && Travels(steps, name, m) && After(steps, name, m) in steps
    ensures steps[After(steps, name, m)].now != ""
    decreases m
  {
    if m > 0 {
      LandingMeetsPicks(steps, steps[name].now, k - 1, m - 1);
    }
  }

  /** A group resolves to the same leaf and URL as the group it picks. */
  lemma LeafOfPick(steps: Steps, name: Name)
    requires name in steps && steps[name].now in steps && steps[name].now != ""
    ensures LeafOf(steps, name) == LeafOf(steps, steps[name].now)
  {
    var pick := steps[name].now;
    LeafFindsTheLanding(steps, name);
    LeafFindsTheLanding(steps, pick);
    if k: nat :| Lands(steps, name, k) {
      assert Lands(steps, pick, k - 1);
      assert After(steps, name, k - 1) == After(steps, pick, k - 2);
    } else if k: nat :| Lands(steps, pick, k) {
      assert Lands(steps, name, k + 1);
    }
  }
}
