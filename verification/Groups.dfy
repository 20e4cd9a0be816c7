/**
 The flat member vector of `GroupContainer`, as a value: what its query
 functions read from it and what its group operations turn it into.
 Time and fresh group ids are parameters.
 */
module Groups {
  import opened Seqs
  import opened Text

  datatype GroupMember = GroupMember(
    name: string, isLeader: bool, isOnline: bool, groupId: string,
    zone: string, health: string, storeTime: int)

  datatype GroupInviteData = GroupInviteData(leaderName: string, memberName: string, storeTime: int)

  datatype GroupInfo = GroupInfo(
    groupId: string, leaderName: string, isLeader: bool,
    memberCount: int, errorCode: int, groupMembers: seq<GroupMember>)

  const SUCCESS := 1
  const IS_IN_ANOTHER_GROUP := -2
  const IS_NOT_LEADER := -4
  const IS_NOT_MEMBER := -5
  const ERROR_FULL := -6
  const IS_NOT_MEMBER_OF_ANY_GROUP := -7
  const IS_ALREADY_IN_GROUP := -8
  const LEADER_EMPTY := -10
  const MEMBER_ALREADY_IN_GROUP := -11
  const LEADER_HAS_NO_GROUP := -12
  const CANNOT_KICK_SELF := -13

  const MAX_GROUP_MEMBERS := 6
  const MAX_INVITE_AGE := 180
  const GROUP_PREFIX := "group_"

  const NO_INFO := GroupInfo("", "", false, 0, 0, [])

  type Members = seq<GroupMember>

  // ------------------------------------------------------------------ queries

  /** Position of the first entry called `name`, or `|ms|`. */
  function IndexOf(ms: Members, name: string): (k: nat)
    ensures k <= |ms|
    ensures k < |ms| ==> ms[k].name == name
    ensures forall i :: 0 <= i < k ==> ms[i].name != name
  {
    if ms == [] then 0
    else
      var k := IndexOf(Front(ms), name);
      if k < |ms| - 1 then k
      else if Last(ms).name == name then |ms| - 1
      else |ms|
  }

  predicate IsMember(ms: Members, name: string) {
    IndexOf(ms, name) < |ms|
  }

  /** Group id stored with `name`; empty when the name is not stored. */
  function GroupOf(ms: Members, name: string): string {
    var k := IndexOf(ms, name);
    if k < |ms| then ms[k].groupId else ""
  }

  /** Entries of one group, in vector order. */
  function Roster(ms: Members, id: string): Members {
    if ms == [] then []
    else Roster(Front(ms), id) + (if Last(ms).groupId == id then [Last(ms)] else [])
  }

  predicate HasLeader(ms: Members, id: string) {
    ms != [] && ((Last(ms).groupId == id && Last(ms).isLeader) || HasLeader(Front(ms), id))
  }

  /** Name of the last entry of the group whose leader flag is set. */
  function LeaderName(ms: Members, id: string): string {
    if ms == [] then ""
    else if Last(ms).groupId == id && Last(ms).isLeader then Last(ms).name
    else LeaderName(Front(ms), id)
  }

  /** `GetGroupInfo`. */
  function InfoByName(ms: Members, name: string): GroupInfo {
    var id := GroupOf(ms, name);
    if id == "" then NO_INFO.(errorCode := IS_NOT_MEMBER_OF_ANY_GROUP)
    else
      GroupInfo(id, LeaderName(ms, id), HasLeader(ms, id) && LeaderName(ms, id) == name,
                |Roster(ms, id)|, 0, Roster(ms, id))
  }

  /** `GetGroupInfoByGroupId`. */
  function InfoById(ms: Members, id: string): GroupInfo {
    GroupInfo(id, LeaderName(ms, id), HasLeader(ms, id), |Roster(ms, id)|, 0, Roster(ms, id))
  }

  function GroupIds(ms: Members): set<string> {
    set i | 0 <= i < |ms| :: ms[i].groupId
  }

  // --------------------------------------------------------------- operations

  /** Result of a container operation: the new vector and the returned record. */
  datatype Outcome = Outcome(members: Members, info: GroupInfo)

  function NewMember(name: string, id: string, leads: bool, now: int): GroupMember {
    GroupMember(name, leads, true, id, "", "", now)
  }

  /** `erase(remove_if(name == ...))`. */
  function Erase(ms: Members, name: string): Members {
    if ms == [] then []
    else Erase(Front(ms), name) + (if Last(ms).name == name then [] else [Last(ms)])
  }

  /** `AssignLeader`: the first entry of the group leads, the others do not. */
  function AssignLeader(ms: Members, id: string): (r: Members)
    ensures |r| == |ms|
  {
    if ms == [] then []
    else
      AssignLeader(Front(ms), id) +
      [if Last(ms).groupId == id then Last(ms).(isLeader := Roster(Front(ms), id) == []) else Last(ms)]
  }

  function StartGroup(ms: Members, leader: string, newId: string, now: int): Outcome {
    var info := InfoByName(ms, leader);
    if info.groupId != "" then Outcome(ms, info.(errorCode := MEMBER_ALREADY_IN_GROUP))
    else
      var m := NewMember(leader, newId, true, now);
      Outcome(ms + [m], GroupInfo(newId, leader, true, 1, 0, [m]))
  }

  function JoinGroup(ms: Members, member: string, leader: string, now: int): Outcome {
    if leader == "" then Outcome(ms, NO_INFO.(errorCode := LEADER_EMPTY))
    else
      var target := InfoByName(ms, leader);
      if target.groupId == "" then Outcome(ms, target.(errorCode := LEADER_HAS_NO_GROUP))
      else if target.memberCount >= MAX_GROUP_MEMBERS then
        Outcome(ms, target.(groupId := "", errorCode := ERROR_FULL))
      else
        var own := InfoByName(ms, member);
        if own.groupId != "" then Outcome(ms, own.(errorCode := MEMBER_ALREADY_IN_GROUP))
        else
          var m := NewMember(member, target.groupId, false, now);
          Outcome(ms + [m], target.(memberCount := target.memberCount + 1,
                                    groupMembers := target.groupMembers + [m]))
  }

  /** `GroupInvite` only checks; error code 1 means the invitation may be stored. */
  function CheckInvite(ms: Members, member: string, leader: string): GroupInfo {
    var target := InfoByName(ms, leader);
    var own := InfoByName(ms, member);
    if !target.isLeader then target.(groupId := "", memberCount := 0, errorCode := IS_NOT_LEADER)
    else if own.groupId != "" && own.groupId == target.groupId then own.(errorCode := IS_ALREADY_IN_GROUP)
    else if own.groupId != "" && own.memberCount > 1 then
      own.(groupId := "", memberCount := 0, errorCode := IS_IN_ANOTHER_GROUP)
    else target.(errorCode := SUCCESS)
  }

  function KickMember(ms: Members, member: string, leader: string): Outcome {
    if member == leader then Outcome(ms, NO_INFO.(errorCode := CANNOT_KICK_SELF))
    else
      var target := InfoByName(ms, leader);
      if !target.isLeader then
        Outcome(ms, target.(groupId := "", memberCount := 0, errorCode := IS_NOT_LEADER))
      else
        var own := InfoByName(ms, member);
        if own.groupId != target.groupId then Outcome(ms, own.(errorCode := IS_NOT_MEMBER))
        else Outcome(Erase(ms, member), InfoByName(Erase(ms, member), leader))
  }

  /** `GroupDisband`, which removes one member. */
  function LeaveGroup(ms: Members, member: string): Outcome {
    var info := InfoByName(ms, member);
    var rest := Erase(ms, member);
    Outcome(if info.leaderName == member then AssignLeader(rest, info.groupId) else rest,
            info.(errorCode := SUCCESS, groupId := "", memberCount := 0, leaderName := ""))
  }

  function SetOnline(ms: Members, name: string, online: bool, now: int): Members {
    var k := IndexOf(ms, name);
    if k < |ms| then
      ms[k := ms[k].(isOnline := online, storeTime := if online then now else ms[k].storeTime)]
    else ms
  }

  /** Whether `SetMemberOnline` reports a change. */
  predicate OnlineChanges(ms: Members, name: string, online: bool) {
    var k := IndexOf(ms, name);
    k < |ms| && ms[k].isOnline != online
  }

  function MarkAlive(ms: Members, name: string, zone: string, health: string, now: int): Members {
    var k := IndexOf(ms, name);
    if k < |ms| then ms[k := ms[k].(zone := zone, health := health, storeTime := now, isOnline := true)] else ms
  }

  // ------------------------------------------------------------------ invites

  type Invites = seq<GroupInviteData>

  function Filter<T(!new)>(s: seq<T>, keep: T -> bool): (r: seq<T>)
    ensures forall x :: x in r <==> x in s && keep(x)
  {
    if s == [] then []
    else
      assert s == Front(s) + [Last(s)];
      Filter(Front(s), keep) + (if keep(Last(s)) then [Last(s)] else [])
  }

  /** `RemoveOldInvites`. */
  function PruneInvites(invites: Invites, now: int): Invites {
    Filter(invites, (i: GroupInviteData) => now - i.storeTime <= MAX_INVITE_AGE)
  }

  /** `RemoveInvite`: exact names. */
  function DropInvite(invites: Invites, leader: string, member: string): Invites {
    Filter(invites, (i: GroupInviteData) => !(i.leaderName == leader && i.memberName == member))
  }

  /** Invitations of a dissolved one-member group are cancelled. */
  function DropInvitesOf(invites: Invites, leader: string): Invites {
    Filter(invites, (i: GroupInviteData) => i.leaderName != leader)
  }

  /** `CheckHasInvited`: names up to ASCII case. */
  predicate HasInvited(invites: Invites, leader: string, member: string) {
    exists i :: 0 <= i < |invites| &&
                SameIgnoringCase(invites[i].leaderName, leader) && SameIgnoringCase(invites[i].memberName, member)
  }

  /** What `GroupDisband` leaves of the invitations. */
  function InvitesAfterLeaving(ms: Members, invites: Invites, member: string): Invites {
    if InfoByName(ms, member).memberCount == 1 then DropInvitesOf(invites, member) else invites
  }

  /** `GetGroupTopic`. */
  function GroupTopic(groupId: string): string {
    if groupId == "" then "" else if GROUP_PREFIX <= groupId then groupId else GROUP_PREFIX + groupId
  }

  // ---------------------------------------------------------------- invariant

  ghost predicate UniqueNames(ms: Members) {
    forall i, j :: 0 <= i < j < |ms| ==> ms[i].name != ms[j].name
  }

  /** The flag is set on exactly the longest-standing entry of each group:
      an entry has it when no earlier entry is of its group. */
  ghost predicate FirstLeads(ms: Members) {
    ms != [] ==>
      FirstLeads(Front(ms)) && (Last(ms).isLeader <==> Roster(Front(ms), Last(ms).groupId) == [])
  }

  ghost predicate SizesOk(ms: Members) {
    forall id :: |Roster(ms, id)| <= MAX_GROUP_MEMBERS
  }

  ghost predicate NonemptyIds(ms: Members) {
    forall i :: 0 <= i < |ms| ==> ms[i].groupId != ""
  }

  ghost predicate WellFormed(ms: Members) {
    UniqueNames(ms) && FirstLeads(ms) && NonemptyIds(ms) && SizesOk(ms)
  }

  /** What the id generator is assumed to deliver. */
  ghost predicate FreshId(ms: Members, id: string) {
    GROUP_PREFIX <= id && forall i :: 0 <= i < |ms| ==> ms[i].groupId != id
  }

  // ------------------------------------------------------- facts about queries

  lemma IndexUnique(ms: Members, i: nat)
    requires UniqueNames(ms) && i < |ms|
    ensures IndexOf(ms, ms[i].name) == i
  {
  }

  lemma {:induction false} RosterContents(ms: Members, id: string)
    ensures forall i :: 0 <= i < |Roster(ms, id)| ==> Roster(ms, id)[i] in ms && Roster(ms, id)[i].groupId == id
    ensures forall i :: 0 <= i < |ms| && ms[i].groupId == id ==> ms[i] in Roster(ms, id)
  {
    if ms != [] {
      RosterContents(Front(ms), id);
      assert ms == Front(ms) + [Last(ms)];
    }
  }

  lemma RosterEmpty(ms: Members, id: string)
    ensures Roster(ms, id) == [] <==> forall i :: 0 <= i < |ms| ==> ms[i].groupId != id
  {
    RosterContents(ms, id);
    if Roster(ms, id) != [] {
      var m := Roster(ms, id)[0];
      var i :| 0 <= i < |ms| && ms[i] == m;
      assert ms[i].groupId == id;
    }
  }

  /** The leader the queries report is the longest-standing member. */
  lemma {:induction false} LeaderIsFirst(ms: Members, id: string)
    requires FirstLeads(ms)
    ensures HasLeader(ms, id) <==> Roster(ms, id) != []
    ensures HasLeader(ms, id) ==> LeaderName(ms, id) == Roster(ms, id)[0].name
    ensures !HasLeader(ms, id) ==> LeaderName(ms, id) == ""
  {
    if ms != [] {
      LeaderIsFirst(Front(ms), id);
    }
  }

  lemma SameEntry(ms: Members, x: GroupMember, y: GroupMember)
    requires UniqueNames(ms) && x in ms && y in ms && x.name == y.name
    ensures x == y
  {
  }

  /** An invitation is accepted exactly when the inviter heads a roster and the guest is free or alone
      in another group. */
  lemma InviteAccepted(ms: Members, member: string, leader: string)
    requires UniqueNames(ms) && FirstLeads(ms)
    ensures var own, target := GroupOf(ms, member), GroupOf(ms, leader);
      CheckInvite(ms, member, leader).errorCode == SUCCESS <==>
        && target != "" && Roster(ms, target) != [] && Roster(ms, target)[0].name == leader
        && (own == "" || (own != target && |Roster(ms, own)| == 1))
  {
    var own := GroupOf(ms, member);
    LeaderIsFirst(ms, GroupOf(ms, leader));
    if own != "" {
      assert IsMember(ms, member);
      MemberGroupNonempty(ms, member);
    }
  }

  lemma MemberGroupNonempty(ms: Members, name: string)
    requires IsMember(ms, name)
    ensures Roster(ms, GroupOf(ms, name)) != []
  {
    RosterEmpty(ms, GroupOf(ms, name));
  }

  // ------------------------------------------------- operations, entry by entry

  lemma AppendQueries(ms: Members, m: GroupMember)
    ensures Front(ms + [m]) == ms && Last(ms + [m]) == m
    ensures forall id :: Roster(ms + [m], id) == Roster(ms, id) + (if m.groupId == id then [m] else [])
    ensures forall n :: GroupOf(ms + [m], n) ==
                        if IsMember(ms, n) then GroupOf(ms, n) else if m.name == n then m.groupId else ""
  {
    assert Front(ms + [m]) == ms;
  }

  lemma {:induction false} EraseQueries(ms: Members, name: string)
    ensures forall i :: 0 <= i < |Erase(ms, name)| ==> Erase(ms, name)[i] in ms && Erase(ms, name)[i].name != name
    ensures forall i :: 0 <= i < |ms| && ms[i].name != name ==> ms[i] in Erase(ms, name)
    ensures forall id :: Roster(Erase(ms, name), id) == Erase(Roster(ms, id), name)
  {
    if ms != [] {
      var front, last := Front(ms), Last(ms);
      EraseQueries(front, name);
      assert ms == front + [last];
      var e := Erase(front, name);
      forall id
        ensures Roster(Erase(ms, name), id) == Erase(Roster(ms, id), name)
      {
        if last.name == name {
          assert Erase(ms, name) == e;
        } else {
          AppendQueries(e, last);
        }
        if last.groupId == id {
          assert Front(Roster(front, id) + [last]) == Roster(front, id);
        } else {
          assert Roster(ms, id) == Roster(front, id);
        }
      }
    }
  }

  lemma {:induction false} EraseUnique(ms: Members, name: string)
    requires UniqueNames(ms)
    ensures UniqueNames(Erase(ms, name))
    ensures |Erase(ms, name)| == |ms| - (if IsMember(ms, name) then 1 else 0)
  {
    if ms != [] {
      var front := Front(ms);
      EraseUnique(front, name);
      EraseQueries(front, name);
    }
  }

  lemma EraseGroupOf(ms: Members, name: string, other: string)
    requires UniqueNames(ms)
    ensures GroupOf(Erase(ms, name), other) == if other == name then "" else GroupOf(ms, other)
  {
    EraseQueries(ms, name);
    EraseUnique(ms, name);
    var e := Erase(ms, name);
    if IsMember(e, other) {
      var m := e[IndexOf(e, other)];
      var i :| 0 <= i < |ms| && ms[i] == m;
      IndexUnique(ms, i);
    }
  }

  lemma {:induction false} AssignLeaderShape(ms: Members, id: string)
    ensures forall i :: 0 <= i < |ms| ==>
              AssignLeader(ms, id)[i] == ms[i].(isLeader := AssignLeader(ms, id)[i].isLeader)
    ensures forall i :: 0 <= i < |ms| && ms[i].groupId != id ==> AssignLeader(ms, id)[i] == ms[i]
  {
    if ms != [] {
      AssignLeaderShape(Front(ms), id);
    }
  }

  /** A change that touches neither names nor group ids. */
  ghost predicate SameShape(a: Members, b: Members) {
    |a| == |b| && forall i :: 0 <= i < |a| ==> a[i].name == b[i].name && a[i].groupId == b[i].groupId
  }

  lemma {:induction false} ShapeQueries(a: Members, b: Members)
    requires SameShape(a, b)
    ensures forall n :: IndexOf(a, n) == IndexOf(b, n)
    ensures forall n :: GroupOf(a, n) == GroupOf(b, n)
    ensures forall id :: SameShape(Roster(a, id), Roster(b, id))
    ensures GroupIds(a) == GroupIds(b)
  {
    if a != [] {
      ShapeQueries(Front(a), Front(b));
    }
  }
}
