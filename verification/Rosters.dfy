/**
 What the flat member vector stands for: a map from group id to the names of
 its members in join order. The abstract machine below is written on that map
 alone, without flags or scans; the flat operations refine it on every run.
 */
module Rosters {
  import opened Seqs
  import opened Groups

  type Rosters = map<string, seq<string>>

  datatype Op =
    | Start(leader: string, newId: string)
    | Join(member: string, leader: string)
    | Kick(member: string, leader: string)
    | Leave(member: string)

  // --------------------------------------------------------- abstract machine

  /** The group a name belongs to, or "". */
  ghost function Home(a: Rosters, name: string): string {
    if exists id :: id in a && name in a[id] then
      var id :| id in a && name in a[id]; id
    else ""
  }

  function Without(names: seq<string>, name: string): seq<string> {
    if names == [] then []
    else Without(Front(names), name) + (if Last(names) == name then [] else [Last(names)])
  }

  /** The rosters after removing a name. */
  ghost function Removed(a: Rosters, g: string, name: string): Rosters {
    if g !in a then a
    else if Without(a[g], name) == [] then a - {g}
    else a[g := Without(a[g], name)]
  }

  /** One operation on rosters: the new rosters and the error code. */
  ghost function AbstractStep(a: Rosters, op: Op): (Rosters, int) {
    match op
    case Start(leader, newId) =>
      if Home(a, leader) != "" then (a, MEMBER_ALREADY_IN_GROUP) else (a[newId := [leader]], 0)
    case Join(member, leader) =>
      var g := Home(a, leader);
      if leader == "" then (a, LEADER_EMPTY)
      else if g == "" || g !in a then (a, LEADER_HAS_NO_GROUP)
      else if |a[g]| >= MAX_GROUP_MEMBERS then (a, ERROR_FULL)
      else if Home(a, member) != "" then (a, MEMBER_ALREADY_IN_GROUP)
      else (a[g := a[g] + [member]], 0)
    case Kick(member, leader) =>
      var g := Home(a, leader);
      if member == leader then (a, CANNOT_KICK_SELF)
      else if g == "" || g !in a || a[g] == [] || a[g][0] != leader then (a, IS_NOT_LEADER)
      else if member !in a[g] then (a, IS_NOT_MEMBER)
      else (a[g := Without(a[g], member)], 0)
    case Leave(member) =>
      (Removed(a, Home(a, member), member), SUCCESS)
  }

  ghost function AbstractRun(ops: seq<Op>): (Rosters, seq<int>) {
    if ops == [] then (map[], [])
    else
      var before := AbstractRun(Front(ops));
      var step := AbstractStep(before.0, Last(ops));
      (step.0, before.1 + [step.1])
  }

  ghost predicate NoRepeats(names: seq<string>) {
    names == [] || (Last(names) !in Front(names) && NoRepeats(Front(names)))
  }

  // ------------------------------------------------------------- flat machine

  function FlatStep(ms: Members, op: Op, now: int): Outcome {
    match op
    case Start(leader, newId) => StartGroup(ms, leader, newId, now)
    case Join(member, leader) => JoinGroup(ms, member, leader, now)
    case Kick(member, leader) => KickMember(ms, member, leader)
    case Leave(member) => LeaveGroup(ms, member)
  }

  ghost predicate Legal(ms: Members, op: Op) {
    op.Start? ==> FreshId(ms, op.newId)
  }

  function FlatRun(ops: seq<Op>, times: seq<int>): (Members, seq<int>)
    requires |times| == |ops|
  {
    if ops == [] then ([], [])
    else
      var before := FlatRun(Front(ops), Front(times));
      var step := FlatStep(before.0, Last(ops), Last(times));
      (step.members, before.1 + [step.info.errorCode])
  }

  /** Every id handed out was fresh when it was handed out. */
  ghost predicate LegalRun(ops: seq<Op>, times: seq<int>)
    requires |times| == |ops|
  {
    ops == [] ||
    (LegalRun(Front(ops), Front(times)) && Legal(FlatRun(Front(ops), Front(times)).0, Last(ops)))
  }

  // -------------------------------------------------------------- abstraction

  function Names(r: Members): (ns: seq<string>)
    ensures |ns| == |r|
    ensures forall i :: 0 <= i < |r| ==> ns[i] == r[i].name
  {
    seq(|r|, i requires 0 <= i < |r| => r[i].name)
  }

  function Abs(ms: Members): Rosters {
    map id | id in GroupIds(ms) :: Names(Roster(ms, id))
  }

  lemma InRoster(ms: Members, id: string, name: string)
    requires UniqueNames(ms) && id in GroupIds(ms)
    ensures name in Names(Roster(ms, id)) <==> IsMember(ms, name) && GroupOf(ms, name) == id
  {
    RosterContents(ms, id);
    var r := Roster(ms, id);
    if name in Names(r) {
      var i :| 0 <= i < |r| && r[i].name == name;
      var k :| 0 <= k < |ms| && ms[k] == r[i];
      IndexUnique(ms, k);
    }
    if IsMember(ms, name) && GroupOf(ms, name) == id {
      var m := ms[IndexOf(ms, name)];
      var i :| 0 <= i < |r| && r[i] == m;
      assert Names(r)[i] == name;
    }
  }

  lemma {:induction false} RosterNoRepeats(ms: Members, id: string)
    requires UniqueNames(ms)
    ensures NoRepeats(Names(Roster(ms, id)))
  {
    if ms != [] {
      RosterNoRepeats(Front(ms), id);
      if Last(ms).groupId == id {
        LastIsNew(ms, id);
        OneMoreName(Roster(Front(ms), id), Last(ms));
      } else {
        assert Roster(ms, id) == Roster(Front(ms), id);
      }
    }
  }

  lemma LastIsNew(ms: Members, id: string)
    requires UniqueNames(ms) && ms != []
    ensures Last(ms).name !in Names(Roster(Front(ms), id))
  {
    var r := Roster(Front(ms), id);
    RosterContents(Front(ms), id);
    forall i | 0 <= i < |r| ensures r[i].name != Last(ms).name {
      var k :| 0 <= k < |Front(ms)| && Front(ms)[k] == r[i];
      assert ms[k] == r[i];
    }
  }

  lemma OneMoreName(r: Members, m: GroupMember)
    requires NoRepeats(Names(r)) && m.name !in Names(r)
    ensures NoRepeats(Names(r + [m]))
  {
    assert Front(Names(r + [m])) == Names(r);
  }

  lemma HomeIsGroupOf(ms: Members, name: string)
    requires UniqueNames(ms) && NonemptyIds(ms)
    ensures Home(Abs(ms), name) == GroupOf(ms, name)
    ensures GroupOf(ms, name) != "" ==> GroupOf(ms, name) in GroupIds(ms)
  {
    var a := Abs(ms);
    forall id | id in a
      ensures name in a[id] <==> IsMember(ms, name) && GroupOf(ms, name) == id
    {
      InRoster(ms, id, name);
    }
    if IsMember(ms, name) {
      assert GroupOf(ms, name) in a && name in a[GroupOf(ms, name)];
    }
  }

  lemma {:induction false} NamesErase(r: Members, name: string)
    ensures Names(Erase(r, name)) == Without(Names(r), name)
  {
    if r != [] {
      NamesErase(Front(r), name);
      assert Front(Names(r)) == Names(Front(r));
    }
  }

  // --------------------------------------------------- leader flags and leaving

  lemma {:induction false} RosterFlags(ms: Members, id: string)
    requires FirstLeads(ms)
    ensures forall i :: 0 <= i < |Roster(ms, id)| ==> (Roster(ms, id)[i].isLeader <==> i == 0)
  {
    if ms != [] {
      RosterFlags(Front(ms), id);
    }
  }

  /** A stored name leads exactly when it heads its roster. */
  lemma FlagMeansFirst(ms: Members, name: string)
    requires UniqueNames(ms) && FirstLeads(ms) && IsMember(ms, name)
    ensures ms[IndexOf(ms, name)].isLeader <==> LeaderName(ms, GroupOf(ms, name)) == name
    ensures HasLeader(ms, GroupOf(ms, name))
    ensures Roster(ms, GroupOf(ms, name)) != []
    ensures LeaderName(ms, GroupOf(ms, name)) == Names(Roster(ms, GroupOf(ms, name)))[0]
  {
    var m := ms[IndexOf(ms, name)];
    var r := Roster(ms, m.groupId);
    MemberGroupNonempty(ms, name);
    LeaderIsFirst(ms, m.groupId);
    RosterFlags(ms, m.groupId);
    RosterContents(ms, m.groupId);
    assert m in r && r[0] in ms;
    if r[0].name == name {
      SameEntry(ms, m, r[0]);
    }
  }

  /** `FirstLeads`, for one group only. */
  ghost predicate FirstLeadsIn(ms: Members, id: string) {
    ms != [] ==>
      FirstLeadsIn(Front(ms), id) &&
      (Last(ms).groupId == id ==> (Last(ms).isLeader <==> Roster(Front(ms), id) == []))
  }

  lemma {:induction false} LeadsInEach(ms: Members, id: string)
    requires FirstLeads(ms)
    ensures FirstLeadsIn(ms, id)
  {
    if ms != [] {
      LeadsInEach(Front(ms), id);
    }
  }

  lemma {:induction false} LeadsFromEach(ms: Members)
    requires forall id :: FirstLeadsIn(ms, id)
    ensures FirstLeads(ms)
  {
    if ms != [] {
      assert forall id :: FirstLeadsIn(ms, id) ==> FirstLeadsIn(Front(ms), id);
      LeadsFromEach(Front(ms));
      assert FirstLeadsIn(ms, Last(ms).groupId);
    }
  }

  lemma {:induction false} HeadLeads(ms: Members, id: string)
    requires FirstLeadsIn(ms, id) && Roster(ms, id) != []
    ensures Roster(ms, id)[0].isLeader && Roster(ms, id)[0] in ms && Roster(ms, id)[0].groupId == id
  {
    if Roster(Front(ms), id) != [] {
      HeadLeads(Front(ms), id);
    }
  }

  /** Removing a non-leader of `id`, or anyone of another group, keeps the flags of `id` right. */
  lemma {:induction false} EraseKeepsFirst(ms: Members, name: string, id: string)
    requires FirstLeadsIn(ms, id)
    requires forall m :: m in ms && m.name == name && m.groupId == id ==> !m.isLeader
    ensures FirstLeadsIn(Erase(ms, name), id)
  {
    if ms != [] {
      var front, last := Front(ms), Last(ms);
      assert forall m :: m in front ==> m in ms;
      EraseKeepsFirst(front, name, id);
      var e := Erase(front, name);
      if last.name == name {
        assert Erase(ms, name) == e;
      } else {
        assert Front(Erase(ms, name)) == e;
        EraseQueries(front, name);
        EraseQueries(Roster(front, id), name);
        if Roster(front, id) != [] {
          HeadLeads(front, id);
          assert Roster(front, id)[0] in Erase(Roster(front, id), name);
        }
      }
    }
  }

  lemma {:induction false} AssignLeaderFirst(ms: Members, g: string, id: string)
    requires id != g ==> FirstLeadsIn(ms, id)
    ensures FirstLeadsIn(AssignLeader(ms, g), id)
    ensures SameShape(Roster(AssignLeader(ms, g), id), Roster(ms, id))
  {
    if ms != [] {
      AssignLeaderFirst(Front(ms), g, id);
      assert Front(AssignLeader(ms, g)) == AssignLeader(Front(ms), g);
    }
  }

  lemma LeaveKeepsFirst(ms: Members, name: string)
    requires WellFormed(ms)
    ensures FirstLeads(LeaveGroup(ms, name).members)
  {
    var rest := Erase(ms, name);
    var info := InfoByName(ms, name);
    if IsMember(ms, name) {
      FlagMeansFirst(ms, name);
    }
    forall id
      ensures FirstLeadsIn(LeaveGroup(ms, name).members, id)
    {
      if info.leaderName != name || id != info.groupId {
        forall m | m in ms && m.name == name && m.groupId == id
          ensures !m.isLeader
        {
          SameEntry(ms, m, ms[IndexOf(ms, name)]);
        }
        LeadsInEach(ms, id);
        EraseKeepsFirst(ms, name, id);
      }
      if info.leaderName == name {
        AssignLeaderFirst(rest, info.groupId, id);
      }
    }
    LeadsFromEach(LeaveGroup(ms, name).members);
  }

  lemma EraseShrinks(r: Members, name: string)
    ensures |Erase(r, name)| <= |r|
  {
    if r != [] {
      EraseShrinks(Front(r), name);
    }
  }

  lemma LeaveShape(ms: Members, name: string)
    ensures SameShape(LeaveGroup(ms, name).members, Erase(ms, name))
  {
    AssignLeaderShape(Erase(ms, name), InfoByName(ms, name).groupId);
  }

  /** Both removals, kick and leave, at once. */
  lemma RemovalWellFormed(ms: Members, out: Members, name: string)
    requires WellFormed(ms) && SameShape(out, Erase(ms, name)) && FirstLeads(out)
    ensures WellFormed(out)
  {
    EraseUnique(ms, name);
    EraseQueries(ms, name);
    ShapeQueries(out, Erase(ms, name));
    forall id
      ensures |Roster(out, id)| <= MAX_GROUP_MEMBERS
    {
      EraseShrinks(Roster(ms, id), name);
    }
    forall i | 0 <= i < |out|
      ensures out[i].groupId != ""
    {
      assert Erase(ms, name)[i] in ms;
    }
  }

  lemma KickKeepsFirst(ms: Members, member: string, leader: string)
    requires WellFormed(ms) && member != leader
    requires InfoByName(ms, leader).isLeader
    requires GroupOf(ms, member) == GroupOf(ms, leader)
    ensures FirstLeads(Erase(ms, member))
  {
    FlagMeansFirst(ms, member);
    forall id
      ensures FirstLeadsIn(Erase(ms, member), id)
    {
      forall m | m in ms && m.name == member && m.groupId == id
        ensures !m.isLeader
      {
        SameEntry(ms, m, ms[IndexOf(ms, member)]);
      }
      LeadsInEach(ms, id);
      EraseKeepsFirst(ms, member, id);
    }
    LeadsFromEach(Erase(ms, member));
  }

  lemma AppendWellFormed(ms: Members, m: GroupMember)
    requires WellFormed(ms) && !IsMember(ms, m.name) && m.groupId != ""
    requires m.isLeader <==> Roster(ms, m.groupId) == []
    requires |Roster(ms, m.groupId)| < MAX_GROUP_MEMBERS
    ensures WellFormed(ms + [m])
  {
    AppendQueries(ms, m);
    forall i, j | 0 <= i < j < |ms + [m]|
      ensures (ms + [m])[i].name != (ms + [m])[j].name
    {
      assert ms[i] == (ms + [m])[i];
    }
  }

  // -------------------------------------------------------------- the theorems

  /** Every operation keeps: unique names, 1 to 6 members a group, leader = longest-standing. */
  lemma StepWellFormed(ms: Members, op: Op, now: int)
    requires WellFormed(ms) && Legal(ms, op)
    ensures WellFormed(FlatStep(ms, op, now).members)
  {
    match op
    case Start(leader, newId) =>
      if GroupOf(ms, leader) == "" {
        RosterEmpty(ms, newId);
        AppendWellFormed(ms, NewMember(leader, newId, true, now));
      }
    case Join(member, leader) =>
      var g := GroupOf(ms, leader);
      if leader != "" && g != "" && |Roster(ms, g)| < MAX_GROUP_MEMBERS && GroupOf(ms, member) == "" {
        MemberGroupNonempty(ms, leader);
        AppendWellFormed(ms, NewMember(member, g, false, now));
      }
    case Kick(member, leader) =>
      if member != leader && InfoByName(ms, leader).isLeader && GroupOf(ms, member) == GroupOf(ms, leader) {
        KickKeepsFirst(ms, member, leader);
        RemovalWellFormed(ms, Erase(ms, member), member);
      }
    case Leave(member) =>
      LeaveKeepsFirst(ms, member);
      LeaveShape(ms, member);
      RemovalWellFormed(ms, LeaveGroup(ms, member).members, member);
  }

  lemma NamesShape(a: Members, b: Members)
    requires SameShape(a, b)
    ensures Abs(a) == Abs(b)
  {
    ShapeQueries(a, b);
    forall id | id in GroupIds(a)
      ensures Names(Roster(a, id)) == Names(Roster(b, id))
    {
      assert SameShape(Roster(a, id), Roster(b, id));
    }
  }

  lemma IdsOf(ms: Members, id: string)
    ensures id in GroupIds(ms) <==> Roster(ms, id) != []
  {
    RosterEmpty(ms, id);
  }

  function RosterNames(ms: Members, id: string): seq<string> {
    Names(Roster(ms, id))
  }

  lemma AbsIs(ms: Members, a: Rosters)
    requires forall id :: id in a <==> RosterNames(ms, id) != []
    requires forall id :: id in a ==> a[id] == RosterNames(ms, id)
    ensures Abs(ms) == a
  {
    forall id
      ensures id in GroupIds(ms) <==> RosterNames(ms, id) != []
    {
      IdsOf(ms, id);
    }
    assert Abs(ms).Keys == GroupIds(ms);
  }

  lemma AbsHas(ms: Members, id: string)
    ensures id in Abs(ms) <==> RosterNames(ms, id) != []
    ensures id in Abs(ms) ==> Abs(ms)[id] == RosterNames(ms, id)
  {
    IdsOf(ms, id);
  }

  lemma AppendRoster(ms: Members, m: GroupMember, id: string)
    ensures RosterNames(ms + [m], id) == RosterNames(ms, id) + (if id == m.groupId then [m.name] else [])
  {
    assert Front(ms + [m]) == ms;
  }

  lemma AppendAbs(ms: Members, m: GroupMember)
    ensures Abs(ms + [m]) == Abs(ms)[m.groupId := RosterNames(ms, m.groupId) + [m.name]]
  {
    var a := Abs(ms)[m.groupId := RosterNames(ms, m.groupId) + [m.name]];
    forall id
      ensures id in a <==> RosterNames(ms + [m], id) != []
      ensures id in a ==> a[id] == RosterNames(ms + [m], id)
    {
      AbsHas(ms, id);
      AppendRoster(ms, m, id);
    }
    AbsIs(ms + [m], a);
  }

  lemma {:induction false} EraseAbsent(r: Members, name: string)
    requires forall i :: 0 <= i < |r| ==> r[i].name != name
    ensures Erase(r, name) == r
  {
    if r != [] {
      EraseAbsent(Front(r), name);
      FrontLast(r);
    }
  }

  /** The rosters of other groups hold nothing to erase. */
  lemma EraseElsewhere(ms: Members, name: string, id: string)
    requires UniqueNames(ms) && id != GroupOf(ms, name)
    ensures Roster(Erase(ms, name), id) == Roster(ms, id)
  {
    var r := Roster(ms, id);
    EraseQueries(ms, name);
    RosterContents(ms, id);
    forall i | 0 <= i < |r| ensures r[i].name != name {
      var k :| 0 <= k < |ms| && ms[k] == r[i];
      IndexUnique(ms, k);
    }
    EraseAbsent(r, name);
  }

  lemma EraseRoster(ms: Members, name: string, id: string)
    requires UniqueNames(ms) && NonemptyIds(ms)
    ensures RosterNames(Erase(ms, name), id) ==
            if id == GroupOf(ms, name) then Without(RosterNames(ms, id), name) else RosterNames(ms, id)
  {
    if id != GroupOf(ms, name) {
      EraseElsewhere(ms, name, id);
    } else {
      EraseQueries(ms, name);
      NamesErase(Roster(ms, id), name);
    }
  }

  lemma EraseAbs(ms: Members, name: string)
    requires UniqueNames(ms) && NonemptyIds(ms)
    ensures Abs(Erase(ms, name)) == Removed(Abs(ms), GroupOf(ms, name), name)
  {
    var g := GroupOf(ms, name);
    var a := Removed(Abs(ms), g, name);
    forall id
      ensures id in a <==> RosterNames(Erase(ms, name), id) != []
      ensures id in a ==> a[id] == RosterNames(Erase(ms, name), id)
    {
      AbsHas(ms, id);
      AbsHas(ms, g);
      EraseRoster(ms, name, id);
    }
    AbsIs(Erase(ms, name), a);
  }

  /** Refinement: each flat operation does to the rosters exactly what the abstract one says,
      and returns the same error code. */
  lemma StepRefines(ms: Members, op: Op, now: int)
    requires WellFormed(ms) && Legal(ms, op)
    ensures var out := FlatStep(ms, op, now);
            AbstractStep(Abs(ms), op) == (Abs(out.members), out.info.errorCode)
  {
    match op
    case Start(leader, newId) =>
      HomeIsGroupOf(ms, leader);
      RosterEmpty(ms, newId);
      AppendAbs(ms, NewMember(leader, newId, true, now));
      assert [] + [leader] == [leader];
    case Join(member, leader) =>
      HomeIsGroupOf(ms, leader);
      HomeIsGroupOf(ms, member);
      AppendAbs(ms, NewMember(member, GroupOf(ms, leader), false, now));
    case Kick(member, leader) =>
      KickRefines(ms, member, leader, now);
    case Leave(member) =>
      HomeIsGroupOf(ms, member);
      EraseAbs(ms, member);
      LeaveShape(ms, member);
      NamesShape(LeaveGroup(ms, member).members, Erase(ms, member));
  }

  lemma KickRefines(ms: Members, member: string, leader: string, now: int)
    requires WellFormed(ms)
    ensures var out := KickMember(ms, member, leader);
            AbstractStep(Abs(ms), Kick(member, leader)) == (Abs(out.members), out.info.errorCode)
  {
    var g := GroupOf(ms, leader);
    HomeIsGroupOf(ms, leader);
    if member != leader && g != "" {
      FlagMeansFirst(ms, leader);
      if InfoByName(ms, leader).isLeader {
        InRoster(ms, g, member);
        if GroupOf(ms, member) == g {
          EraseAbs(ms, member);
          EraseGroupOf(ms, member, leader);
          NamesErase(Roster(ms, g), member);
          WithoutKeeps(Abs(ms)[g], member, leader);
        }
      }
    }
  }

  lemma {:induction false} WithoutKeeps(names: seq<string>, gone: string, kept: string)
    requires kept in names && kept != gone
    ensures kept in Without(names, gone)
  {
    assert names == Front(names) + [Last(names)];
    if kept in Front(names) {
      WithoutKeeps(Front(names), gone, kept);
    }
  }

  /** On every run the flat vector is well formed and stands for what the abstract machine holds;
      both machines return the same codes. */
  lemma {:induction false} RunRefines(ops: seq<Op>, times: seq<int>)
    requires |times| == |ops| && LegalRun(ops, times)
    ensures WellFormed(FlatRun(ops, times).0)
    ensures AbstractRun(ops) == (Abs(FlatRun(ops, times).0), FlatRun(ops, times).1)
  {
    if ops == [] {
      assert Abs([]) == map[];
    } else {
      RunRefines(Front(ops), Front(times));
      var before := FlatRun(Front(ops), Front(times)).0;
      StepWellFormed(before, Last(ops), Last(times));
      StepRefines(before, Last(ops), Last(times));
    }
  }

  /** After any run: every group has 1 to 6 distinct members, no one is in two groups, and the
      leader flag is set on exactly the longest-standing member of each group. */
  lemma RunLeaders(ops: seq<Op>, times: seq<int>)
    requires |times| == |ops| && LegalRun(ops, times)
    ensures var ms := FlatRun(ops, times).0; var a := AbstractRun(ops).0;
            && (forall id :: id in a ==> 1 <= |a[id]| <= 6 && NoRepeats(a[id]))
            && (forall id, id', name :: id in a && id' in a && name in a[id] && name in a[id'] ==> id == id')
            && (forall m :: m in ms ==> m.groupId in a && m.name in a[m.groupId])
            && (forall m :: m in ms && m.groupId in a ==> (m.isLeader <==> a[m.groupId][0] == m.name))
  {
    RunRefines(ops, times);
    var ms := FlatRun(ops, times).0;
    var a := AbstractRun(ops).0;
    forall id | id in a
      ensures 1 <= |a[id]| <= 6 && NoRepeats(a[id])
      ensures forall name :: name in a[id] ==> GroupOf(ms, name) == id
    {
      IdsOf(ms, id);
      RosterNoRepeats(ms, id);
      forall name | name in a[id] {
        InRoster(ms, id, name);
      }
    }
    forall m | m in ms
      ensures m.groupId in a && m.name in a[m.groupId]
      ensures m.isLeader <==> a[m.groupId][0] == m.name
    {
      var k :| 0 <= k < |ms| && ms[k] == m;
      IndexUnique(ms, k);
      FlagMeansFirst(ms, m.name);
      InRoster(ms, m.groupId, m.name);
    }
  }
}
