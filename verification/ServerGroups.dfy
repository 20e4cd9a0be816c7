/**
 What the server relies on from the group container, stated for one call at a time:
 who is in which group afterwards, and who is shown online.
 */
module ServerGroups {
  import opened Seqs
  import opened Groups
  import Rosters

  ghost predicate GroupsOk(gs: Members) {
    WellFormed(gs) && forall i :: 0 <= i < |gs| ==> GROUP_PREFIX <= gs[i].groupId && gs[i].name != ""
  }

  /** The stored members shown online are exactly those in `online`. */
  ghost predicate Presence(gs: Members, online: set<string>) {
    forall i :: 0 <= i < |gs| ==> (gs[i].isOnline <==> gs[i].name in online)
  }

  /** Only `name` moved: from wherever it was to group `id` ("" for none). */
  ghost predicate OnlyMoved(before: Members, after: Members, name: string, id: string) {
    GroupOf(after, name) == id && forall n :: n != name ==> GroupOf(after, n) == GroupOf(before, n)
  }

  lemma StartFacts(gs: Members, name: string, id: string, now: int, online: set<string>)
    requires GroupsOk(gs) && Presence(gs, online)
    requires GroupOf(gs, name) == "" && name != "" && name in online && FreshId(gs, id)
    ensures var out := StartGroup(gs, name, id, now);
            && GroupsOk(out.members) && Presence(out.members, online)
            && OnlyMoved(gs, out.members, name, id)
            && out.info.errorCode == 0 && out.info.groupId == id
  {
    Rosters.StepWellFormed(gs, Rosters.Start(name, id), now);
    AppendQueries(gs, NewMember(name, id, true, now));
  }

  lemma AppendedFacts(gs: Members, m: GroupMember, online: set<string>)
    requires GroupsOk(gs) && Presence(gs, online) && WellFormed(gs + [m]) && !IsMember(gs, m.name)
    requires m.isOnline && m.name in online && m.name != "" && GROUP_PREFIX <= m.groupId
    ensures GroupsOk(gs + [m]) && Presence(gs + [m], online) && OnlyMoved(gs, gs + [m], m.name, m.groupId)
  {
    AppendQueries(gs, m);
  }

  /** Joining succeeds whenever the inviter has a group with room and the joiner has none. */
  lemma JoinFacts(gs: Members, name: string, inviter: string, now: int, online: set<string>)
    requires GroupsOk(gs) && Presence(gs, online)
    requires GroupOf(gs, name) == "" && name != "" && name in online
    requires GroupOf(gs, inviter) != "" && |Roster(gs, GroupOf(gs, inviter))| < MAX_GROUP_MEMBERS
    ensures var out := JoinGroup(gs, name, inviter, now); var id := GroupOf(gs, inviter);
            && GroupsOk(out.members) && Presence(out.members, online)
            && OnlyMoved(gs, out.members, name, id)
            && out.info.errorCode == 0 && out.info.groupId == id
  {
    var m := NewMember(name, GroupOf(gs, inviter), false, now);
    assert IsMember(gs, inviter) && inviter != "";
    Rosters.StepWellFormed(gs, Rosters.Join(name, inviter), now);
    assert JoinGroup(gs, name, inviter, now).members == gs + [m];
    AppendedFacts(gs, m, online);
  }

  lemma LeaveFacts(gs: Members, name: string, online: set<string>)
    requires GroupsOk(gs) && Presence(gs, online)
    ensures var out := LeaveGroup(gs, name).members;
            && GroupsOk(out) && Presence(out, online) && OnlyMoved(gs, out, name, "")
  {
    Rosters.StepWellFormed(gs, Rosters.Leave(name), 0);
    var rest := Erase(gs, name);
    var out := LeaveGroup(gs, name).members;
    EraseQueries(gs, name);
    AssignLeaderShape(rest, InfoByName(gs, name).groupId);
    ShapeQueries(out, rest);
    forall n
      ensures GroupOf(out, n) == if n == name then "" else GroupOf(gs, n)
    {
      EraseGroupOf(gs, name, n);
    }
    forall i | 0 <= i < |out|
      ensures GROUP_PREFIX <= out[i].groupId && out[i].name != ""
      ensures out[i].isOnline <==> out[i].name in online
    {
      assert rest[i] in gs;
      assert out[i] == rest[i].(isLeader := out[i].isLeader);
    }
  }

  /** Leaving a one-member group leaves every other group's roster alone. */
  lemma SoloLeaveKeepsRosters(gs: Members, name: string, id: string)
    requires GroupsOk(gs) && id != GroupOf(gs, name)
    ensures |Roster(LeaveGroup(gs, name).members, id)| == |Roster(gs, id)|
  {
    var rest := Erase(gs, name);
    AssignLeaderShape(rest, InfoByName(gs, name).groupId);
    ShapeQueries(LeaveGroup(gs, name).members, rest);
    assert SameShape(Roster(LeaveGroup(gs, name).members, id), Roster(rest, id));
    Rosters.EraseRoster(gs, name, id);
    assert |Rosters.RosterNames(rest, id)| == |Rosters.RosterNames(gs, id)|;
  }

  ghost predicate SameFlags(a: Members, b: Members) {
    SameShape(a, b) && forall i :: 0 <= i < |a| ==> a[i].isLeader == b[i].isLeader
  }

  lemma {:induction false} FlagsCarryOver(a: Members, b: Members)
    requires SameFlags(a, b) && FirstLeads(a)
    ensures FirstLeads(b)
  {
    if a != [] {
      FlagsCarryOver(Front(a), Front(b));
      ShapeQueries(Front(a), Front(b));
      assert SameShape(Roster(Front(a), Last(b).groupId), Roster(Front(b), Last(b).groupId));
    }
  }

  lemma SameFlagsOk(a: Members, b: Members)
    requires SameFlags(a, b) && GroupsOk(a)
    ensures GroupsOk(b) && forall n :: GroupOf(b, n) == GroupOf(a, n)
  {
    FlagsCarryOver(a, b);
    ShapeQueries(a, b);
    forall id
      ensures |Roster(b, id)| <= MAX_GROUP_MEMBERS
    {
      assert SameShape(Roster(a, id), Roster(b, id));
    }
  }

  lemma OnlineFacts(gs: Members, name: string, online: bool, now: int, names: set<string>)
    requires GroupsOk(gs) && Presence(gs, names)
    ensures var out := SetOnline(gs, name, online, now);
            && GroupsOk(out) && (forall n :: GroupOf(out, n) == GroupOf(gs, n))
            && Presence(out, if online then names + {name} else names - {name})
  {
    SameFlagsOk(gs, SetOnline(gs, name, online, now));
  }

  lemma AliveFacts(gs: Members, name: string, zone: string, health: string, now: int, names: set<string>)
    requires GroupsOk(gs) && Presence(gs, names) && name in names
    ensures var out := MarkAlive(gs, name, zone, health, now);
            && GroupsOk(out) && (forall n :: GroupOf(out, n) == GroupOf(gs, n)) && Presence(out, names)
  {
    SameFlagsOk(gs, MarkAlive(gs, name, zone, health, now));
  }
}
