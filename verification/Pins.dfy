/** A user's pin against a group test that re-seats the same group, as interleaved
    steps under one lock. */
module Pins {

  import opened Options
  import opened Graphs
  import opened GroupPick

  /** urlTest groups are re-seated; every group here can be pinned if it is selectable. */
  datatype Group = Group(selectable: bool, urlTest: bool, members: seq<Name>, fixed: Name, pick: Name)

  /** handleChangeProxy with a group and a name, or a tested group with its delays. */
  datatype Program = Choose(group: Name, name: Name) | Test(group: Name, delays: Delays)

  datatype Pc =
    | Idle
    | Applying             // lock held, the selection ahead
    | Saving               // the selection is applied
    | Looking              // lock held, the pin is read again
    | Setting              // ForceSet(best) ahead
    | Reading              // pinned on best, Now() ahead
    | Unpinning            // best is adopted, ForceSet("") ahead
    | Seated               // unpinned again
    | Leaving              // the lock is about to be released
    | Done

  /** saved is what the last successful choice of each group stored. */
  datatype State = State(pcs: seq<Pc>, groups: map<Name, Group>, saved: map<Name, Name>, lock: Option<nat>)

  function Init(programs: seq<Program>, groups: map<Name, Group>): State {
    State(seq(|programs|, _ => Idle), groups, map[], None)
  }

  // ----- Steps

  predicate Enabled(programs: seq<Program>, s: State, t: nat) {
    && t < |programs| && t < |s.pcs| && !s.pcs[t].Done?
    && (s.pcs[t].Idle? ==> s.lock.None?)
  }

  /** What Apply answers: an empty name clears the pin, another must be a member. */
  predicate Accepts(s: State, group: Name, name: Name) {
    group in s.groups && s.groups[group].selectable && (name == "" || name in s.groups[group].members)
  }

  function Best(s: State, program: Program): Name
    requires program.Test?
  {
    if program.group in s.groups then FastestOf(s.groups[program.group].members, program.delays) else ""
  }

  function NextPc(programs: seq<Program>, s: State, t: nat): Pc
    requires Enabled(programs, s, t)
  {
    var program := programs[t];
    match s.pcs[t]
    case Idle => if program.Choose? then Applying else Looking
    case Applying => if Accepts(s, program.group, if program.Choose? then program.name else "") then Saving else Leaving
    case Saving => Leaving
    case Looking =>
      if program.Test? && program.group in s.groups && s.groups[program.group].urlTest
         && Best(s, program) != "" && s.groups[program.group].fixed == ""
      then Setting else Leaving
    case Setting => Reading
    case Reading => Unpinning
    case Unpinning => Seated
    case Seated => Leaving
    case Leaving => Done
    case Done => Done
  }

  /** The group as the statement leaves it. */
  function NextGroup(programs: seq<Program>, s: State, t: nat, group: Group): Group
    requires Enabled(programs, s, t)
  {
    var program := programs[t];
    match s.pcs[t]
    case Applying =>
      if program.Choose? && Accepts(s, program.group, program.name) then group.(fixed := program.name) else group
    case Setting => if program.Test? then group.(fixed := Best(s, program)) else group
    case Reading => if group.fixed != "" then group.(pick := group.fixed) else group
    case Unpinning => group.(fixed := "")
    case _ => group
  }

  function Do(programs: seq<Program>, s: State, t: nat): State
    requires Enabled(programs, s, t)
  {
    var g := programs[t].group;
    State(s.pcs[t := NextPc(programs, s, t)],
          if g in s.groups then s.groups[g := NextGroup(programs, s, t, s.groups[g])] else s.groups,
          if s.pcs[t].Saving? && programs[t].Choose? then s.saved[g := programs[t].name] else s.saved,
          if s.pcs[t].Idle? then Some(t) else if s.pcs[t].Leaving? then None else s.lock)
  }

  ghost predicate Follows(programs: seq<Program>, s: State, u: State) {
    exists t :: Enabled(programs, s, t) && u == Do(programs, s, t)
  }

  ghost predicate IsRun(programs: seq<Program>, groups: map<Name, Group>, run: seq<State>) {
    && |run| > 0 && run[0] == Init(programs, groups)
    && forall j :: 0 <= j < |run| - 1 ==> Follows(programs, run[j], run[j + 1])
  }

  // ----- The invariant

  /** The pin the user last asked for, or the one there was at first. */
  ghost function LastChoice(groups: map<Name, Group>, s: State, g: Name): Name
    requires g in groups
  {
    if g in s.saved then s.saved[g] else groups[g].fixed
  }

  ghost predicate PcOk(program: Program, pc: Pc) {
    && (pc.Applying? || pc.Saving? ==> program.Choose?)
    && (pc.Looking? || pc.Setting? || pc.Reading? || pc.Unpinning? || pc.Seated? ==> program.Test?)
  }

  /** What the holder of the lock is in the middle of, for its group. */
  ghost predicate GroupPhase(program: Program, pc: Pc, group: Group, last: Name) {
    match pc
    case Saving => program.Choose? && group.fixed == program.name
    case Setting =>
      group.fixed == last == "" && program.Test? && group.urlTest && FastestOf(group.members, program.delays) != ""
    case Reading =>
      last == "" && program.Test? && group.urlTest && group.fixed == FastestOf(group.members, program.delays) != ""
    case Unpinning =>
      last == "" && program.Test? && group.urlTest && group.pick == FastestOf(group.members, program.delays)
    case Seated =>
      && group.fixed == last == "" && program.Test? && group.urlTest
      && group.pick == FastestOf(group.members, program.delays)
    case _ => group.fixed == last
  }

  ghost predicate ThreadsOk(programs: seq<Program>, groups: map<Name, Group>, s: State) {
    && |s.pcs| == |programs|
    && (s.lock.Some? ==> s.lock.value < |programs|)
    && (forall t :: 0 <= t < |programs| ==>
          PcOk(programs[t], s.pcs[t]) && (s.lock == Some(t) <==> !s.pcs[t].Idle? && !s.pcs[t].Done?))
    && (forall t :: 0 <= t < |programs| && InGroup(s.pcs[t]) ==> programs[t].group in groups)
  }

  /** At these statements the group was found. */
  predicate InGroup(pc: Pc) {
    pc.Saving? || pc.Setting? || pc.Reading? || pc.Unpinning? || pc.Seated?
  }

  ghost predicate GroupOk(programs: seq<Program>, groups: map<Name, Group>, s: State, g: Name)
    requires g in groups && g in s.groups && |s.pcs| == |programs|
  {
    && s.groups[g].members == groups[g].members && s.groups[g].urlTest == groups[g].urlTest
    && s.groups[g].selectable == groups[g].selectable
    && if s.lock.Some? && s.lock.value < |programs| && programs[s.lock.value].group == g
       then GroupPhase(programs[s.lock.value], s.pcs[s.lock.value], s.groups[g], LastChoice(groups, s, g))
       else s.groups[g].fixed == LastChoice(groups, s, g)
  }

  ghost predicate Invariant(programs: seq<Program>, groups: map<Name, Group>, s: State) {
    && ThreadsOk(programs, groups, s)
    && s.groups.Keys == groups.Keys
    && (forall g :: g in groups ==> GroupOk(programs, groups, s, g))
  }

  lemma StepThreads(programs: seq<Program>, groups: map<Name, Group>, s: State, t: nat)
    requires ThreadsOk(programs, groups, s) && s.groups.Keys == groups.Keys && Enabled(programs, s, t)
    ensures ThreadsOk(programs, groups, Do(programs, s, t))
  {
    assert PcOk(programs[t], s.pcs[t]);
  }

  lemma StepOwnGroup(programs: seq<Program>, groups: map<Name, Group>, s: State, t: nat)
    requires Enabled(programs, s, t) && |s.pcs| == |programs| && PcOk(programs[t], s.pcs[t])
    requires s.lock == Some(t) <==> !s.pcs[t].Idle?
    requires s.pcs[t].Idle? ==> s.lock == None
    requires programs[t].group in groups && programs[t].group in s.groups
    requires GroupOk(programs, groups, s, programs[t].group)
    ensures programs[t].group in Do(programs, s, t).groups
    ensures GroupOk(programs, groups, Do(programs, s, t), programs[t].group)
  {
  }

  lemma StepOtherGroup(programs: seq<Program>, groups: map<Name, Group>, s: State, t: nat, g: Name)
    requires Enabled(programs, s, t) && |s.pcs| == |programs| && g != programs[t].group
    requires s.lock == Some(t) || s.lock == None
    requires g in groups && g in s.groups && GroupOk(programs, groups, s, g)
    ensures g in Do(programs, s, t).groups && GroupOk(programs, groups, Do(programs, s, t), g)
  {
  }

  lemma StepInvariant(programs: seq<Program>, groups: map<Name, Group>, s: State, t: nat)
    requires Invariant(programs, groups, s) && Enabled(programs, s, t)
    ensures Invariant(programs, groups, Do(programs, s, t))
  {
    StepThreads(programs, groups, s, t);
    assert PcOk(programs[t], s.pcs[t]);
    forall g | g in groups ensures g in Do(programs, s, t).groups && GroupOk(programs, groups, Do(programs, s, t), g) {
      assert GroupOk(programs, groups, s, g);
      if g == programs[t].group {
        StepOwnGroup(programs, groups, s, t);
      } else {
        StepOtherGroup(programs, groups, s, t, g);
      }
    }
  }

  lemma {:induction false} RunInvariant(programs: seq<Program>, groups: map<Name, Group>, run: seq<State>)
    requires IsRun(programs, groups, run)
    ensures Invariant(programs, groups, run[|run| - 1])
  {
    if |run| > 1 {
      RunInvariant(programs, groups, run[..|run| - 1]);
      assert Follows(programs, run[|run| - 2], run[|run| - 1]);
      var t :| Enabled(programs, run[|run| - 2], t) && run[|run| - 1] == Do(programs, run[|run| - 2], t);
      StepInvariant(programs, groups, run[|run| - 2], t);
    }
  }

  // ----- What holds over whole runs

  /** Whenever the lock is free, every group is pinned as the user last chose. */
  lemma PinSurvivesTests(programs: seq<Program>, groups: map<Name, Group>, run: seq<State>, g: Name)
    requires IsRun(programs, groups, run) && run[|run| - 1].lock == None && g in groups
    ensures g in run[|run| - 1].groups && run[|run| - 1].groups[g].fixed == LastChoice(groups, run[|run| - 1], g)
  {
    RunInvariant(programs, groups, run);
    assert GroupOk(programs, groups, run[|run| - 1], g);
  }

  /** A test writes to a group only if it is an unpinned url-test one, and leaves it
      unpinned on the first of its fastest members; names are not empty. */
  lemma ReseatTargetsFastest(programs: seq<Program>, groups: map<Name, Group>, run: seq<State>, t: nat, k: nat)
    requires IsRun(programs, groups, run)
    requires t < |programs| && t < |run[|run| - 1].pcs| && run[|run| - 1].pcs[t].Seated?
    requires var p := programs[t]; p.Test? && p.group in groups
    requires "" !in groups[programs[t].group].members
    requires FirstFastest(groups[programs[t].group].members, programs[t].delays, k)
    ensures var g := programs[t].group;
            && g in run[|run| - 1].groups
            && run[|run| - 1].groups[g].pick == groups[g].members[k] && run[|run| - 1].groups[g].fixed == ""
            && groups[g].urlTest && LastChoice(groups, run[|run| - 1], g) == ""
  {
    RunInvariant(programs, groups, run);
    var g := programs[t].group;
    assert PcOk(programs[t], run[|run| - 1].pcs[t]);
    assert GroupOk(programs, groups, run[|run| - 1], g);
    FirstFastestLeads(groups[g].members, programs[t].delays, k);
  }

  /** A step of a test changes the pin or the pick of a group only while it seats its
      own group, a url-test one that the user has not pinned. */
  lemma PinnedGroupIsLeftAlone(programs: seq<Program>, groups: map<Name, Group>, run: seq<State>, t: nat, g: Name)
    requires IsRun(programs, groups, run) && Enabled(programs, run[|run| - 1], t) && programs[t].Test?
    requires g in groups
    requires LastChoice(groups, run[|run| - 1], g) != "" || !groups[g].urlTest || g != programs[t].group
    ensures g in run[|run| - 1].groups && g in Do(programs, run[|run| - 1], t).groups
    ensures Do(programs, run[|run| - 1], t).groups[g] == run[|run| - 1].groups[g]
  {
    RunInvariant(programs, groups, run);
    var s := run[|run| - 1];
    assert PcOk(programs[t], s.pcs[t]);
    assert GroupOk(programs, groups, s, g);
  }

  /** A choice in a known, selectable group, of one of its members or of none, is pinned
      and stored before its lock is released; any other leaves the groups and what is
      stored alone. */
  lemma ChoiceTakesEffect(programs: seq<Program>, s: State, t: nat)
    requires Enabled(programs, s, t) && s.pcs[t].Applying? && programs[t].Choose?
    ensures var u := Do(programs, s, t);
            var g := programs[t].group;
            if g in s.groups && s.groups[g].selectable
               && (programs[t].name == "" || programs[t].name in s.groups[g].members) then
              Enabled(programs, u, t)
              && (var v := Do(programs, u, t);
                  v.pcs[t].Leaving? && g in v.groups && v.groups[g].fixed == programs[t].name
                  && g in v.saved && v.saved[g] == programs[t].name)
            else u.pcs[t].Leaving? && u.groups == s.groups && u.saved == s.saved
  {
  }

  /** A test with a fastest member seats every unpinned url-test group, in four statements. */
  lemma TestSeatsUnpinned(programs: seq<Program>, s: State, t: nat) returns (u: State)
    requires Enabled(programs, s, t) && s.pcs[t].Looking? && programs[t].Test? && programs[t].group in s.groups
    requires var group := s.groups[programs[t].group];
             group.urlTest && group.fixed == "" && FastestOf(group.members, programs[t].delays) != ""
    ensures u.pcs[..] == s.pcs[t := Seated] && u.saved == s.saved && u.lock == s.lock
    ensures u.groups == s.groups[programs[t].group :=
              s.groups[programs[t].group].(pick := FastestOf(s.groups[programs[t].group].members, programs[t].delays))]
  {
    u := Do(programs, s, t);
    u := Do(programs, u, t);
    u := Do(programs, u, t);
    u := Do(programs, u, t);
  }

  // ----- What a call has done by the time it returns

  /** The choice is one that can be made. */
  ghost predicate IsChoice(groups: map<Name, Group>, program: Program) {
    && program.Choose? && program.group in groups && groups[program.group].selectable
    && (program.name == "" || program.name in groups[program.group].members)
  }

  /** About to release the lock: a choice that can be made is stored, and an unpinned
      url-test group with an answering member has its fastest one as its pick. */
  ghost predicate LeavesDone(programs: seq<Program>, groups: map<Name, Group>, s: State, t: nat)
    requires t < |programs|
  {
    var program := programs[t];
    && (IsChoice(groups, program) ==> program.group in s.saved && s.saved[program.group] == program.name)
    && (program.Test? && program.group in groups && program.group in s.groups && groups[program.group].urlTest
        && LastChoice(groups, s, program.group) == ""
        && FastestOf(groups[program.group].members, program.delays) != "" ==>
          s.groups[program.group].pick == FastestOf(groups[program.group].members, program.delays))
  }

  lemma StepLeavesDone(programs: seq<Program>, groups: map<Name, Group>, s: State, a: nat, t: nat)
    requires Invariant(programs, groups, s) && Enabled(programs, s, a) && t < |programs|
    requires s.pcs[t].Leaving? ==> LeavesDone(programs, groups, s, t)
    ensures t < |Do(programs, s, a).pcs|
    ensures Do(programs, s, a).pcs[t].Leaving? ==> LeavesDone(programs, groups, Do(programs, s, a), t)
  {
    assert PcOk(programs[a], s.pcs[a]);
    if programs[t].group in groups {
      assert GroupOk(programs, groups, s, programs[t].group);
    }
  }

  lemma {:induction false} RunLeavesDone(programs: seq<Program>, groups: map<Name, Group>, run: seq<State>, t: nat)
    requires IsRun(programs, groups, run) && t < |programs|
    ensures t < |run[|run| - 1].pcs|
    ensures run[|run| - 1].pcs[t].Leaving? ==> LeavesDone(programs, groups, run[|run| - 1], t)
  {
    if |run| > 1 {
      var front := run[..|run| - 1];
      RunLeavesDone(programs, groups, front, t);
      RunInvariant(programs, groups, front);
      assert Follows(programs, run[|run| - 2], run[|run| - 1]);
      var a :| Enabled(programs, run[|run| - 2], a) && run[|run| - 1] == Do(programs, run[|run| - 2], a);
      StepLeavesDone(programs, groups, front[|front| - 1], a, t);
    }
  }

  ghost predicate IsLeaving(s: State, t: nat) {
    t < |s.pcs| && s.pcs[t].Leaving? && s.lock == Some(t)
  }

  /** Every call that has returned was once about to release the lock it held. */
  lemma {:induction false} ReturnedHeldLock(programs: seq<Program>, groups: map<Name, Group>, run: seq<State>, t: nat)
    returns (i: nat)
    requires IsRun(programs, groups, run) && t < |programs|
    requires t < |run[|run| - 1].pcs| && run[|run| - 1].pcs[t].Done?
    ensures i < |run| && IsRun(programs, groups, run[..i + 1]) && IsLeaving(run[i], t)
  {
    i := 0;
    if |run| > 1 {
      var front := run[..|run| - 1];
      RunInvariant(programs, groups, front);
      assert Follows(programs, run[|run| - 2], run[|run| - 1]);
      var a :| Enabled(programs, run[|run| - 2], a) && run[|run| - 1] == Do(programs, run[|run| - 2], a);
      if run[|run| - 2].pcs[t].Done? {
        i := ReturnedHeldLock(programs, groups, front, t);
        assert run[..i + 1] == front[..i + 1];
      } else {
        i := |run| - 2;
      }
    }
  }

  /** A choice that has returned, of a member or of none in a known, selectable group,
      was pinned and stored at a moment when it held the lock. */
  lemma ChoiceWasMade(programs: seq<Program>, groups: map<Name, Group>, run: seq<State>, t: nat) returns (i: nat)
    requires IsRun(programs, groups, run) && t < |programs| && IsChoice(groups, programs[t])
    requires t < |run[|run| - 1].pcs| && run[|run| - 1].pcs[t].Done?
    ensures i < |run| && run[i].lock == Some(t)
    ensures var g := programs[t].group;
            && g in run[i].groups && run[i].groups[g].fixed == programs[t].name
            && g in run[i].saved && run[i].saved[g] == programs[t].name
  {
    i := ReturnedHeldLock(programs, groups, run, t);
    RunLeavesDone(programs, groups, run[..i + 1], t);
    RunInvariant(programs, groups, run[..i + 1]);
    assert GroupOk(programs, groups, run[i], programs[t].group);
  }

  /** A test that has returned has, at a moment when it held the lock, had its url-test
      group either pinned by the user, or unpinned with the first of its fastest
      members as its pick. */
  lemma TestWasSeated(programs: seq<Program>, groups: map<Name, Group>, run: seq<State>, t: nat, k: nat)
    returns (i: nat)
    requires IsRun(programs, groups, run) && t < |programs| && programs[t].Test? && programs[t].group in groups
    requires groups[programs[t].group].urlTest
    requires FirstFastest(groups[programs[t].group].members, programs[t].delays, k)
    requires groups[programs[t].group].members[k] != ""
    requires t < |run[|run| - 1].pcs| && run[|run| - 1].pcs[t].Done?
    ensures i < |run| && run[i].lock == Some(t)
    ensures var g := programs[t].group;
            && g in run[i].groups && run[i].groups[g].fixed == LastChoice(groups, run[i], g)
            && (run[i].groups[g].fixed == "" ==> run[i].groups[g].pick == groups[g].members[k])
  {
    i := ReturnedHeldLock(programs, groups, run, t);
    RunLeavesDone(programs, groups, run[..i + 1], t);
    RunInvariant(programs, groups, run[..i + 1]);
    assert GroupOk(programs, groups, run[i], programs[t].group);
    FirstFastestLeads(groups[programs[t].group].members, programs[t].delays, k);
  }

  // ----- Progress

  ghost predicate CanStep(programs: seq<Program>, s: State) {
    exists t :: Enabled(programs, s, t)
  }

  /** While a call has not returned, some call can go on. */
  lemma NeverStuck(programs: seq<Program>, groups: map<Name, Group>, run: seq<State>, t: nat)
    requires IsRun(programs, groups, run) && t < |programs|
    requires t < |run[|run| - 1].pcs| && !run[|run| - 1].pcs[t].Done?
    ensures CanStep(programs, run[|run| - 1])
  {
    RunInvariant(programs, groups, run);
    var s := run[|run| - 1];
    assert Enabled(programs, s, if s.lock.Some? then s.lock.value else t);
  }
}
