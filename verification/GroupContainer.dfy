/**
 `GroupContainer` itself: two vectors changed in place, scanned by loops. Each
 method is tied to the functions of module `Groups` on the vectors' contents.
 */
module GroupContainers {
  import opened Seqs
  import opened Text
  import opened Groups

  class GroupContainer {
    var myGroups: seq<GroupMember>
    var myInvites: seq<GroupInviteData>

    constructor ()
      ensures myGroups == [] && myInvites == []
    {
      myGroups, myInvites := [], [];
    }

    method GetGroupInfo(memberName: string) returns (groupInfo: GroupInfo)
      ensures groupInfo == InfoByName(myGroups, memberName)
    {
      var id := "";
      var k := 0;
      while k < |myGroups|
        invariant 0 <= k <= |myGroups|
        invariant forall i :: 0 <= i < k ==> myGroups[i].name != memberName
        invariant id == ""
      {
        if myGroups[k].name == memberName {
          id := myGroups[k].groupId;
          break;
        }
        k := k + 1;
      }
      assert k == IndexOf(myGroups, memberName);
      if id == "" {
        return NO_INFO.(errorCode := IS_NOT_MEMBER_OF_ANY_GROUP);
      }
      groupInfo := Tally(id, memberName);
    }

    /** The counting loop shared by both queries: members, count, last flagged leader. */
    method Tally(id: string, memberName: string) returns (groupInfo: GroupInfo)
      ensures groupInfo == GroupInfo(id, LeaderName(myGroups, id),
                                     HasLeader(myGroups, id) && LeaderName(myGroups, id) == memberName,
                                     |Roster(myGroups, id)|, 0, Roster(myGroups, id))
    {
      var leaderName, isLeader, memberCount, found: seq<GroupMember> := "", false, 0, [];
      for k := 0 to |myGroups|
        invariant found == Roster(myGroups[..k], id) && memberCount == |found|
        invariant leaderName == LeaderName(myGroups[..k], id)
        invariant isLeader == (HasLeader(myGroups[..k], id) && leaderName == memberName)
      {
        assert Front(myGroups[..k + 1]) == myGroups[..k];
        var member := myGroups[k];
        if member.groupId == id {
          memberCount := memberCount + 1;
          found := found + [member];
        }
        if member.groupId == id && member.isLeader {
          leaderName := member.name;
          isLeader := member.name == memberName;
        }
      }
      assert myGroups[..|myGroups|] == myGroups;
      groupInfo := GroupInfo(id, leaderName, isLeader, memberCount, 0, found);
    }

    method GetGroupInfoByGroupId(groupId: string) returns (groupInfo: GroupInfo)
      ensures groupInfo == InfoById(myGroups, groupId)
    {
      var leaderName, isLeader, found: seq<GroupMember> := "", false, [];
      for k := 0 to |myGroups|
        invariant found == Roster(myGroups[..k], groupId)
        invariant leaderName == LeaderName(myGroups[..k], groupId)
        invariant isLeader == HasLeader(myGroups[..k], groupId)
      {
        assert Front(myGroups[..k + 1]) == myGroups[..k];
        var member := myGroups[k];
        if member.groupId == groupId {
          found := found + [member];
          if member.isLeader {
            leaderName, isLeader := member.name, true;
          }
        }
      }
      assert myGroups[..|myGroups|] == myGroups;
      groupInfo := GroupInfo(groupId, leaderName, isLeader, |found|, 0, found);
    }

    method GroupStartGroup(leaderName: string, newId: string, now: int) returns (info: GroupInfo)
      modifies this`myGroups
      ensures Outcome(myGroups, info) == StartGroup(old(myGroups), leaderName, newId, now)
    {
      info := GetGroupInfo(leaderName);
      if info.groupId != "" {
        return info.(errorCode := MEMBER_ALREADY_IN_GROUP);
      }
      var newMember := NewMember(leaderName, newId, true, now);
      myGroups := myGroups + [newMember];
      info := GroupInfo(newId, leaderName, true, 1, 0, [newMember]);
    }

    method GroupJoin(memberName: string, leaderName: string, now: int) returns (info: GroupInfo)
      modifies this`myGroups
      ensures Outcome(myGroups, info) == JoinGroup(old(myGroups), memberName, leaderName, now)
    {
      if leaderName == "" {
        return NO_INFO.(errorCode := LEADER_EMPTY);
      }
      info := GetGroupInfo(leaderName);
      if info.groupId == "" {
        return info.(errorCode := LEADER_HAS_NO_GROUP);
      }
      if info.memberCount >= MAX_GROUP_MEMBERS {
        return info.(groupId := "", errorCode := ERROR_FULL);
      }
      var memberInfo := GetGroupInfo(memberName);
      if memberInfo.groupId != "" {
        return memberInfo.(errorCode := MEMBER_ALREADY_IN_GROUP);
      }
      var newMember := NewMember(memberName, info.groupId, false, now);
      myGroups := myGroups + [newMember];
      info := info.(memberCount := info.memberCount + 1, groupMembers := info.groupMembers + [newMember]);
    }

    method GroupInvite(memberName: string, leaderName: string) returns (info: GroupInfo)
      ensures info == CheckInvite(myGroups, memberName, leaderName)
    {
      var leaderInfo := GetGroupInfo(leaderName);
      var memberInfo := GetGroupInfo(memberName);
      if !leaderInfo.isLeader {
        return leaderInfo.(groupId := "", memberCount := 0, errorCode := IS_NOT_LEADER);
      }
      if memberInfo.groupId != "" && memberInfo.groupId == leaderInfo.groupId {
        return memberInfo.(errorCode := IS_ALREADY_IN_GROUP);
      }
      if memberInfo.groupId != "" && memberInfo.memberCount > 1 {
        return memberInfo.(errorCode := IS_IN_ANOTHER_GROUP, groupId := "", memberCount := 0);
      }
      info := leaderInfo.(errorCode := SUCCESS);
    }

    method GroupKickMember(memberName: string, leaderName: string) returns (info: GroupInfo)
      modifies this`myGroups
      ensures Outcome(myGroups, info) == KickMember(old(myGroups), memberName, leaderName)
    {
      if memberName == leaderName {
        return NO_INFO.(errorCode := CANNOT_KICK_SELF);
      }
      info := GetGroupInfo(leaderName);
      if !info.isLeader {
        return info.(errorCode := IS_NOT_LEADER, groupId := "", memberCount := 0);
      }
      var memberInfo := GetGroupInfo(memberName);
      if memberInfo.groupId != info.groupId {
        return memberInfo.(errorCode := IS_NOT_MEMBER);
      }
      myGroups := Erase(myGroups, memberName);
      info := GetGroupInfo(leaderName);
    }

    method GroupDisband(memberName: string) returns (info: GroupInfo)
      modifies this
      ensures Outcome(myGroups, info) == LeaveGroup(old(myGroups), memberName)
      ensures myInvites == InvitesAfterLeaving(old(myGroups), old(myInvites), memberName)
    {
      info := GetGroupInfo(memberName);
      var wasLeader := info.leaderName == memberName;
      if info.memberCount == 1 {
        myInvites := DropInvitesOf(myInvites, memberName);
      }
      myGroups := Erase(myGroups, memberName);
      if wasLeader {
        AssignFirstAsLeader(info.groupId);
      }
      info := info.(errorCode := SUCCESS, groupId := "", memberCount := 0, leaderName := "");
    }

    method AssignFirstAsLeader(groupId: string)
      modifies this`myGroups
      ensures myGroups == AssignLeader(old(myGroups), groupId)
    {
      ghost var was := myGroups;
      var found := false;
      for k := 0 to |myGroups|
        invariant |myGroups| == |was|
        invariant myGroups[..k] == AssignLeader(was[..k], groupId)
        invariant myGroups[k..] == was[k..]
        invariant found <==> Roster(was[..k], groupId) != []
      {
        assert Front(was[..k + 1]) == was[..k];
        assert myGroups[k] == myGroups[k..][0] == was[k];
        if myGroups[k].groupId == groupId {
          myGroups := myGroups[k := myGroups[k].(isLeader := !found)];
          found := true;
        }
        assert myGroups[..k + 1] == myGroups[..k] + [myGroups[k]];
      }
      assert was[..|was|] == was && myGroups[..|was|] == myGroups;
    }

    method AliveMsg(name: string, zone: string, health: string, now: int)
      modifies this`myGroups
      ensures myGroups == MarkAlive(old(myGroups), name, zone, health, now)
    {
      var k := 0;
      while k < |myGroups|
        invariant 0 <= k <= |myGroups| && myGroups == old(myGroups)
        invariant forall i :: 0 <= i < k ==> myGroups[i].name != name
      {
        if myGroups[k].name == name {
          assert k == IndexOf(myGroups, name);
          myGroups := myGroups[k := myGroups[k].(zone := zone, health := health, storeTime := now, isOnline := true)];
          break;
        }
        k := k + 1;
      }
    }

    method SetMemberOnline(memberName: string, online: bool, now: int) returns (changed: bool)
      modifies this`myGroups
      ensures myGroups == SetOnline(old(myGroups), memberName, online, now)
      ensures changed == OnlineChanges(old(myGroups), memberName, online)
    {
      for k := 0 to |myGroups|
        invariant myGroups == old(myGroups)
        invariant forall i :: 0 <= i < k ==> myGroups[i].name != memberName
      {
        var member := myGroups[k];
        if member.name == memberName {
          assert k == IndexOf(myGroups, memberName);
          changed := member.isOnline != online;
          myGroups := myGroups[k := member.(isOnline := online, storeTime := if online then now else member.storeTime)];
          return;
        }
      }
      changed := false;
    }

    method RemoveOldInvites(now: int)
      modifies this`myInvites
      ensures myInvites == PruneInvites(old(myInvites), now)
    {
      myInvites := PruneInvites(myInvites, now);
    }

    method RemoveInvite(leaderName: string, memberName: string)
      modifies this`myInvites
      ensures myInvites == DropInvite(old(myInvites), leaderName, memberName)
    {
      myInvites := DropInvite(myInvites, leaderName, memberName);
    }

    method AddInvite(leaderName: string, memberName: string, now: int)
      modifies this`myInvites
      ensures myInvites == old(myInvites) + [GroupInviteData(leaderName, memberName, now)]
    {
      myInvites := myInvites + [GroupInviteData(leaderName, memberName, now)];
    }

    method CheckHasInvited(leaderName: string, memberName: string) returns (invited: bool)
      ensures invited == HasInvited(myInvites, leaderName, memberName)
    {
      for k := 0 to |myInvites|
        invariant forall i :: 0 <= i < k ==>
          !(SameIgnoringCase(myInvites[i].leaderName, leaderName) && SameIgnoringCase(myInvites[i].memberName, memberName))
      {
        if SameIgnoringCase(myInvites[k].leaderName, leaderName) && SameIgnoringCase(myInvites[k].memberName, memberName) {
          return true;
        }
      }
      invited := false;
    }

    /** `GetUniqueGroupIds`: every group id once, in some order. */
    method GetUniqueGroupIds() returns (ids: seq<string>)
      ensures forall i, j :: 0 <= i < j < |ids| ==> ids[i] != ids[j]
      ensures forall id :: id in ids <==> id in GroupIds(myGroups) && id != ""
    {
      var unique: set<string> := {};
      for k := 0 to |myGroups|
        invariant forall id :: id in unique <==> id != "" && exists i :: 0 <= i < k && myGroups[i].groupId == id
      {
        if myGroups[k].groupId != "" {
          unique := unique + {myGroups[k].groupId};
        }
      }
      ids := [];
      var rest := unique;
      while rest != {}
        invariant rest <= unique
        invariant forall i, j :: 0 <= i < j < |ids| ==> ids[i] != ids[j]
        invariant forall id :: id in ids <==> id in unique - rest
        decreases |rest|
      {
        var id :| id in rest;
        assert id !in ids;
        ids := ids + [id];
        rest := rest - {id};
      }
    }
  }
}
