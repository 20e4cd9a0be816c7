/**
 Group records and their announcement: whenever a step changes what the server would say about
 a group it says so on the group's topic, but for two kinds of steps.
 */
module ServerUpdates {
  import opened Seqs
  import opened Text
  import opened Groups
  import opened GroupInfoCodec
  import opened ServerGroups
  import opened ServerSteps
  import opened ServerInvariant
  import opened ServerKeeps
  import opened ServerRuns
  import opened ServerCommands
  import opened ServerInvitations
  import opened Envelope = ChatEnvelope
  import Rosters

  // --------------------------------------------------------------- records of groups

  /** The server's record of group `id` reads differently. */
  ghost predicate RecordChanges(before: Members, after: Members, id: string) {
    GroupUpdateText(after, id) != GroupUpdateText(before, id)
  }

  /** The same members in the same order, shown online or not alike. */
  ghost predicate SameLook(a: Members, b: Members) {
    |a| == |b| && forall i :: 0 <= i < |a| ==> a[i].name == b[i].name && a[i].isOnline == b[i].isOnline
  }

  /** A record is told by the look of the roster. */
  lemma LookTells(a: Members, b: Members, id: string)
    requires WellFormed(a) && WellFormed(b) && SameLook(Roster(a, id), Roster(b, id))
    ensures !RecordChanges(a, b, id)
  {
    LeaderIsFirst(a, id);
    LeaderIsFirst(b, id);
    var x, y := InfoById(a, id), InfoById(b, id);
    assert Entries(x.groupMembers) == Entries(y.groupMembers);
    assert Fields(x) == Fields(y);
  }

  lemma SnocLook(a: Members, b: Members, x: GroupMember, y: GroupMember)
    requires SameLook(a, b) && x.name == y.name && x.isOnline == y.isOnline
    ensures SameLook(a + [x], b + [y])
  {
  }

  /** Changes to other groups do not show. */
  lemma {:induction false} RosterLook(a: Members, b: Members, id: string)
    requires SameShape(a, b) && forall i :: 0 <= i < |a| && a[i].groupId == id ==> a[i].isOnline == b[i].isOnline
    ensures SameLook(Roster(a, id), Roster(b, id))
  {
    if a != [] {
      RosterLook(Front(a), Front(b), id);
      if Last(a).groupId == id {
        SnocLook(Roster(Front(a), id), Roster(Front(b), id), Last(a), Last(b));
      }
    }
  }

  lemma LeaveElsewhere(gs: Members, name: string, id: string)
    requires GroupsOk(gs) && GroupsOk(LeaveGroup(gs, name).members) && id != GroupOf(gs, name)
    ensures !RecordChanges(gs, LeaveGroup(gs, name).members, id)
  {
    var rest, out := Erase(gs, name), LeaveGroup(gs, name).members;
    EraseQueries(gs, name);
    Rosters.EraseElsewhere(gs, name, id);
    AssignLeaderShape(rest, InfoByName(gs, name).groupId);
    RosterLook(rest, out, id);
    LookTells(gs, out, id);
  }

  lemma AppendElsewhere(gs: Members, m: GroupMember, id: string)
    requires WellFormed(gs) && WellFormed(gs + [m]) && id != m.groupId
    ensures !RecordChanges(gs, gs + [m], id)
  {
    AppendQueries(gs, m);
    assert Roster(gs + [m], id) == Roster(gs, id);
    LookTells(gs, gs + [m], id);
  }

  lemma OnlineElsewhere(gs: Members, name: string, online: bool, now: int, id: string)
    requires GroupsOk(gs) && GroupsOk(SetOnline(gs, name, online, now))
    requires id != GroupOf(gs, name) || !OnlineChanges(gs, name, online)
    ensures !RecordChanges(gs, SetOnline(gs, name, online, now), id)
  {
    RosterLook(gs, SetOnline(gs, name, online, now), id);
    LookTells(gs, SetOnline(gs, name, online, now), id);
  }

  lemma AliveKeepsRecord(gs: Members, name: string, zone: string, health: string, now: int, id: string)
    requires GroupsOk(gs) && GroupsOk(MarkAlive(gs, name, zone, health, now)) && !OnlineChanges(gs, name, true)
    ensures !RecordChanges(gs, MarkAlive(gs, name, zone, health, now), id)
  {
    RosterLook(gs, MarkAlive(gs, name, zone, health, now), id);
    LookTells(gs, MarkAlive(gs, name, zone, health, now), id);
  }

  // ------------------------------------------------------------------- announcements

  /** The record of group `id` as it is after the step is published on the group's topic. */
  ghost predicate Announced(s: ServerState, s': ServerState, id: string) {
    exists i :: |s.sent| <= i < |s'.sent| && s'.sent[i].topic == id && s'.sent[i].payload == GroupUpdateText(s'.groups, id)
  }

  ghost predicate Told(s: ServerState, s': ServerState, id: string) {
    RecordChanges(s.groups, s'.groups, id) ==> Announced(s, s', id)
  }

  lemma UpdateAnnounces(s: ServerState, s1: ServerState, id: string)
    requires s.sent <= s1.sent && GROUP_PREFIX <= id
    ensures Announced(s, SendGroupUpdate(s1, id), id)
  {
    var s' := SendGroupUpdate(s1, id);
    assert s'.sent[|s1.sent|].topic == id && s'.sent[|s1.sent|].payload == GroupUpdateText(s'.groups, id);
  }

  /** Of a socket's own group, by name. */
  lemma OwnGroup(s: ServerState, ws: SocketId)
    requires Inv(s) && ws in s.sockets && s.sockets[ws].connected
    ensures var d := s.sockets[ws];
      d.groupId == GroupOf(s.groups, d.name) && (d.groupId != "" ==> GROUP_PREFIX <= d.groupId)
      && !OnlineChanges(s.groups, d.name, true)
  {
    CachedId(s, ws);
  }

  lemma CloseTells(s: ServerState, ws: SocketId, now: int, id: string)
    requires Inv(s) && ws in s.sockets
    ensures Told(s, CloseStep(s, ws, now), id)
  {
    CloseKeeps(s, ws, now);
    var d, rest := s.sockets[ws], s.(sockets := s.sockets - {ws});
    if d.connected {
      OwnGroup(s, ws);
      if d.groupId == id && OnlineChanges(s.groups, d.name, false) {
        var s1 := rest.(sessions := s.sessions - {d.name}, groups := SetOnline(s.groups, d.name, false, now));
        assert id != "" && CloseStep(s, ws, now) == SendGroupUpdate(s1, id);
        UpdateAnnounces(s, s1, id);
      } else {
        OnlineElsewhere(s.groups, d.name, false, now, id);
      }
    }
  }

  lemma EstablishTells(s: ServerState, ws: SocketId, now: int, id: string)
    requires ws in s.sockets && GroupsOk(s.groups) && GroupsOk(SetOnline(s.groups, s.sockets[ws].name, true, now))
    ensures Told(s, EstablishSession(s, ws, now), id)
    ensures id == GroupOf(s.groups, s.sockets[ws].name) != "" ==> Announced(s, EstablishSession(s, ws, now), id)
    ensures EstablishSession(s, ws, now).groups == SetOnline(s.groups, s.sockets[ws].name, true, now)
    ensures s.sent <= EstablishSession(s, ws, now).sent
  {
    var d := s.sockets[ws];
    if id == GroupOf(s.groups, d.name) && id != "" {
      var s1 := s.(sessions := s.sessions[d.name := ws], groups := SetOnline(s.groups, d.name, true, now),
                   sockets := s.sockets[ws := SubscribeStandard(d.(groupId := id))]);
      assert EstablishSession(s, ws, now) == SendGroupUpdate(s1, id);
      UpdateAnnounces(s, s1, id);
    } else {
      NoGroupNoChange(s.groups, d.name, id);
      OnlineElsewhere(s.groups, d.name, true, now, id);
    }
  }

  lemma NoGroupNoChange(gs: Members, name: string, id: string)
    requires GroupsOk(gs) && (id != GroupOf(gs, name) || id == "")
    ensures id != GroupOf(gs, name) || !OnlineChanges(gs, name, true)
  {
  }

  lemma ToldOn(s: ServerState, s1: ServerState, s2: ServerState, id: string)
    requires s.sent <= s1.sent && Announced(s1, s2, id)
    ensures Announced(s, s2, id)
  {
    var i :| |s1.sent| <= i < |s2.sent| && s2.sent[i].topic == id && s2.sent[i].payload == GroupUpdateText(s2.groups, id);
    assert |s.sent| <= i;
  }

  /** A login that retires the old socket first. */
  lemma ReconnectTells(s: ServerState, s2: ServerState, ws: SocketId, name: string, now: int, id: string)
    requires Inv(s) && ws in s2.sockets && s2.sockets[ws].name == name && s.sent <= s2.sent
    requires s2.groups == s.groups || s2.groups == SetOnline(s.groups, name, false, now)
    ensures Told(s, EstablishSession(s2, ws, now), id)
  {
    OnlineFacts(s.groups, name, false, now, s.sessions.Keys);
    assert GroupsOk(s2.groups) && GroupOf(s2.groups, name) == GroupOf(s.groups, name);
    OkAfterOnline(s2.groups, name, true, now);
    EstablishTells(s2, ws, now, id);
    if id == GroupOf(s.groups, name) != "" {
      ToldOn(s, s2, EstablishSession(s2, ws, now), id);
    } else {
      NoGroupNoChange(s.groups, name, id);
      NoGroupNoChange(s2.groups, name, id);
      OnlineElsewhere(s2.groups, name, true, now, id);
      RetiredElsewhere(s.groups, s2.groups, name, now, id);
    }
  }

  lemma OkAfterOnline(gs: Members, name: string, online: bool, now: int)
    requires GroupsOk(gs)
    ensures GroupsOk(SetOnline(gs, name, online, now))
  {
    SameFlagsOk(gs, SetOnline(gs, name, online, now));
  }

  lemma RetiredElsewhere(gs: Members, gs2: Members, name: string, now: int, id: string)
    requires GroupsOk(gs) && GroupsOk(gs2) && (gs2 == gs || gs2 == SetOnline(gs, name, false, now))
    requires id != GroupOf(gs, name) || id == ""
    ensures !RecordChanges(gs, gs2, id)
  {
    if gs2 != gs {
      OnlineElsewhere(gs, name, false, now, id);
    }
  }

  lemma CloseLogs(s: ServerState, ws: SocketId, now: int)
    requires ws in s.sockets
    ensures s.sent <= CloseStep(s, ws, now).sent
  {
  }

  lemma ConnectTells(s: ServerState, ws: SocketId, login: Login, now: int, id: string)
    requires Inv(s) && ws in s.sockets && (login.Accepted? ==> login.name != "")
    ensures Told(s, ConnectStep(s, ws, login, now), id)
  {
    var d := s.sockets[ws];
    if d.connected || login.Refused? {
      CloseTells(s, ws, now, id);
    } else {
      var d1 := d.(name := login.name, zone := login.zone, connected := true);
      if login.name in s.sessions {
        var prev := s.sessions[login.name];
        assert s.sockets[prev].connected && prev != ws;
        CloseKeeps(s, prev, now);
        CloseCommutes(s, ws, d1, prev, now);
        CloseLogs(s, prev, now);
        ReconnectTells(s, WithSocket(CloseStep(s, prev, now), ws, d1), ws, login.name, now, id);
      } else {
        ReconnectTells(s, WithSocket(s, ws, d1), ws, login.name, now, id);
      }
    }
  }

  lemma DisbandTells(s: ServerState, ws: SocketId, id: string)
    requires Inv(s) && ws in s.sockets && s.sockets[ws].connected
    ensures Told(s, DisbandStep(s, ws), id)
  {
    var d := s.sockets[ws];
    OwnGroup(s, ws);
    if d.groupId != "" {
      LeaveFacts(s.groups, d.name, s.sessions.Keys);
      if id == d.groupId {
        var s1 := WithSocket(s, ws, UnsubscribeGroup(d).(groupId := ""))
          .(groups := LeaveGroup(s.groups, d.name).members,
            invites := InvitesAfterLeaving(s.groups, s.invites, d.name));
        var s2 := Publish(s1, id, Serialize(FDaraChatMsg(EChatCmdType.GroupDisbandInfo, d.name, "", "left the group")));
        assert DisbandStep(s, ws) == SendGroupUpdate(s2, id);
        UpdateAnnounces(s, s2, id);
      } else {
        LeaveElsewhere(s.groups, d.name, id);
      }
    }
  }

  lemma AliveTells(s: ServerState, ws: SocketId, health: string, now: int, id: string)
    requires Inv(s) && ws in s.sockets && s.sockets[ws].connected
    ensures Told(s, AliveStep(s, ws, health, now), id)
  {
    OwnGroup(s, ws);
    AliveFacts(s.groups, s.sockets[ws].name, s.sockets[ws].zone, health, now, s.sessions.Keys);
    AliveKeepsRecord(s.groups, s.sockets[ws].name, s.sockets[ws].zone, health, now, id);
  }

  lemma BinaryTells(s: ServerState, ws: SocketId, data: string, valid: bool, health: string, now: int, id: string)
    requires Inv(s) && ws in s.sockets
    ensures Told(s, BinaryStep(s, ws, data, valid, health, now), id)
  {
    if s.sockets[ws].connected {
      OwnGroup(s, ws);
      AliveFacts(s.groups, s.sockets[ws].name, s.sockets[ws].zone, health, now, s.sessions.Keys);
      AliveKeepsRecord(s.groups, s.sockets[ws].name, s.sockets[ws].zone, health, now, id);
    }
  }

  // ------------------------------------------------------------- what is not announced

  lemma {:induction false} JoinLonger(a: seq<string>, b: seq<string>, d: char)
    requires a != [] && |a| <= |b| && forall i :: 0 <= i < |a| ==> |a[i]| <= |b[i]|
    ensures |Join(a, d)| <= |Join(b, d)| && (|a| < |b| ==> |Join(a, d)| < |Join(b, d)|)
  {
    if |a| > 1 {
      JoinLonger(a[1..], b[1..], d);
    }
  }

  /** The record of an empty group differs from that of every other. */
  lemma EmptyDiffers(a: Members, b: Members, id: string)
    requires WellFormed(a) && Roster(a, id) == [] && Roster(b, id) != []
    ensures RecordChanges(a, b, id) && RecordChanges(b, a, id)
  {
    LeaderIsFirst(a, id);
    var x, y := Fields(InfoById(a, id)), Fields(InfoById(b, id));
    assert |x| == 5 && |y| > 5 && x[0] == y[0] && x[1] == "" && |x[2]| == 1 && |x[3]| == 1 && x[4] == y[4];
    JoinLonger(x, y, ';');
    assert |GroupUpdateText(a, id)| - |Wire(InfoById(a, id))| == |GroupUpdateText(b, id)| - |Wire(InfoById(b, id))|;
  }

  /** A change that is not announced. */
  ghost predicate Silent(s: ServerState, s': ServerState, id: string) {
    RecordChanges(s.groups, s'.groups, id) && !Announced(s, s', id)
  }

  lemma FreshIsEmpty(gs: Members, id: string)
    requires FreshId(gs, id)
    ensures Roster(gs, id) == []
  {
    RosterEmpty(gs, id);
  }

  lemma OfferLogs(s: ServerState, ws: SocketId, leader: string, invited: string, text: string, now: int, i: nat)
    requires ws in s.sockets && |s.sent| <= i < |OfferInvite(s, ws, leader, invited, text, now).sent|
    ensures OfferInvite(s, ws, leader, invited, text, now).sent[i].topic == TELL_PREFIX + ToLower(invited)
  {
  }

  /** The group an invitation starts implicitly is not announced; nothing else changes. */
  lemma InviteSilent(s: ServerState, ws: SocketId, invited: string, text: string, newId: string, now: int, id: string)
    requires Inv(s) && ws in s.sockets && s.sockets[ws].connected && FreshId(s.groups, newId)
    ensures Silent(s, InviteStep(s, ws, invited, text, newId, now), id) <==> s.sockets[ws].groupId == "" && id == newId
  {
    var d, s1, s' := s.sockets[ws], EnsureGroup(s, ws, newId, now), InviteStep(s, ws, invited, text, newId, now);
    InviteIsEnsure(s, ws, invited, text, newId, now);
    OwnGroup(s, ws);
    if d.groupId == "" {
      StartFacts(s.groups, d.name, newId, now, s.sessions.Keys);
      var m := NewMember(d.name, newId, true, now);
      assert s1.groups == s.groups + [m] && s1.sent == s.sent;
      AppendQueries(s.groups, m);
      if id == newId {
        FreshIsEmpty(s.groups, newId);
        EmptyDiffers(s.groups, s1.groups, id);
        forall i | |s.sent| <= i < |s'.sent| ensures s'.sent[i].topic != id {
          OfferLogs(s1, ws, d.name, invited, text, now, i);
          assert s'.sent[i].topic[0] == 't' && id[0] == 'g';
        }
      } else {
        AppendElsewhere(s.groups, m, id);
      }
    }
  }

  /** A join that succeeds announces the group joined, and publishes nothing else. */
  lemma EnterAnnounces(s: ServerState, ws: SocketId, inviter: string, now: int)
    requires Inv(s) && ws in s.sockets && s.sockets[ws].connected && GroupOf(s.groups, s.sockets[ws].name) == ""
    requires GroupOf(s.groups, inviter) != "" && |Roster(s.groups, GroupOf(s.groups, inviter))| < MAX_GROUP_MEMBERS
    ensures var s', target := EnterGroup(s, ws, inviter, now), GroupOf(s.groups, inviter);
      && s'.groups == s.groups + [NewMember(s.sockets[ws].name, target, false, now)]
      && |s'.sent| == |s.sent| + 1 && s.sent <= s'.sent && Last(s'.sent).topic == target
      && Last(s'.sent).payload == GroupUpdateText(s'.groups, target)
  {
    OwnGroup(s, ws);
    JoinFacts(s.groups, s.sockets[ws].name, inviter, now, s.sessions.Keys);
    StoredIdPrefixed(s, inviter);
  }

  lemma OnlyTarget(s: ServerState, s': ServerState, target: string, id: string)
    requires |s'.sent| == |s.sent| + 1 && Last(s'.sent).topic == target
    requires Last(s'.sent).payload == GroupUpdateText(s'.groups, target)
    ensures Announced(s, s', id) <==> id == target
  {
    assert Last(s'.sent) == s'.sent[|s.sent|];
  }

  /** What becomes of the record of a group other than the one joined. */
  lemma JoinElsewhere(s: ServerState, ws: SocketId, inviter: string, m: GroupMember, id: string)
    requires Inv(s) && ws in s.sockets && s.sockets[ws].connected
    requires JoinAllowed(s, s.sockets[ws].name, inviter) && InfoByName(s.groups, s.sockets[ws].name).memberCount <= 1
    requires GroupsOk(LeaveSolo(s, ws).groups) && WellFormed(LeaveSolo(s, ws).groups + [m]) && id != m.groupId
    ensures RecordChanges(s.groups, LeaveSolo(s, ws).groups + [m], id) <==> id == s.sockets[ws].groupId != ""
  {
    var d, gs := s.sockets[ws], LeaveSolo(s, ws).groups;
    OwnGroup(s, ws);
    AppendElsewhere(gs, m, id);
    if d.groupId != "" {
      MemberGroupNonempty(s.groups, d.name);
      if id == d.groupId {
        SoloIsGone(s.groups, d.name);
        EmptyDiffers(gs, s.groups, id);
      } else {
        LeaveElsewhere(s.groups, d.name, id);
      }
    }
  }

  lemma SoloErased(gs: Members, name: string)
    requires IsMember(gs, name) && |Roster(gs, GroupOf(gs, name))| == 1
    ensures Erase(Roster(gs, GroupOf(gs, name)), name) == []
  {
    var roster, m := Roster(gs, GroupOf(gs, name)), gs[IndexOf(gs, name)];
    RosterContents(gs, GroupOf(gs, name));
    assert m in roster && roster == [m] && Front(roster) == [];
  }

  lemma SoloIsGone(gs: Members, name: string)
    requires GroupsOk(gs) && IsMember(gs, name) && |Roster(gs, GroupOf(gs, name))| == 1
    ensures Roster(LeaveGroup(gs, name).members, GroupOf(gs, name)) == []
  {
    var id, rest, out := GroupOf(gs, name), Erase(gs, name), LeaveGroup(gs, name).members;
    EraseQueries(gs, name);
    SoloErased(gs, name);
    AssignLeaderShape(rest, InfoByName(gs, name).groupId);
    ShapeQueries(out, rest);
    assert SameShape(Roster(out, id), Roster(rest, id));
  }

  /** The group of one that a join gives up is not announced; nothing else changes silently. */
  lemma JoinSilent(s: ServerState, ws: SocketId, inviter: string, now: int, id: string)
    requires Inv(s) && ws in s.sockets && s.sockets[ws].connected
    ensures Silent(s, JoinStep(s, ws, inviter, now), id) <==>
            JoinEffective(s, s.sockets[ws].name, inviter, now) && id == s.sockets[ws].groupId != ""
  {
    var name := s.sockets[ws].name;
    var s1 := s.(invites := PruneInvites(s.invites, now));
    SameCoreInv(s, s1);
    if JoinEffective(s, name, inviter, now) {
      EffectiveSilent(s, s1, ws, inviter, now, id);
    } else {
      JoinAllOrNothing(s, ws, inviter, now);
      NoJoinNoChange(s, ws, inviter, now);
    }
  }

  lemma NoJoinNoChange(s: ServerState, ws: SocketId, inviter: string, now: int)
    requires Inv(s) && ws in s.sockets && s.sockets[ws].connected && !JoinEffective(s, s.sockets[ws].name, inviter, now)
    ensures JoinStep(s, ws, inviter, now).groups == s.groups
  {
    var s1 := s.(invites := PruneInvites(s.invites, now));
    SameCoreInv(s, s1);
    LeaveSoloKeeps(s1, ws);
    CachedId(s1, ws);
  }

  lemma EffectiveSilent(s: ServerState, s1: ServerState, ws: SocketId, inviter: string, now: int, id: string)
    requires Inv(s) && ws in s.sockets && s.sockets[ws].connected
    requires s1 == s.(invites := PruneInvites(s.invites, now)) && Inv(s1)
    requires JoinEffective(s, s.sockets[ws].name, inviter, now)
    ensures Silent(s, JoinStep(s, ws, inviter, now), id) <==> id == s.sockets[ws].groupId != ""
  {
    var s2, name, target := LeaveSolo(s1, ws), s.sockets[ws].name, GroupOf(s.groups, inviter);
    var m := NewMember(name, target, false, now);
    LeaveSoloKeeps(s1, ws);
    SoloLeft(s1, ws, inviter);
    EnterAnnounces(s2, ws, inviter, now);
    EnterKeeps(s2, ws, inviter, now);
    OnlyTarget(s, JoinStep(s, ws, inviter, now), target, id);
    OwnGroup(s, ws);
    if id != target {
      JoinElsewhere(s1, ws, inviter, m, id);
    }
  }

  lemma TalkTells(s: ServerState, ws: SocketId, m: FDaraChatMsg, newId: string, now: int, id: string)
    requires ws in s.sockets && !GroupCommand(m.Type)
    ensures !Silent(s, CommandStep(s, ws, m, newId, now), id)
  {
    OnlyPublishes(s, ws, m, newId, now);
  }

  /** Which record a chat command changes without saying so. */
  predicate Suppresses(s: ServerState, d: DaraSocket, m: FDaraChatMsg, newId: string, now: int, id: string) {
    || (m.Type.GroupInvite? && d.groupId == "" && id == newId)
    || (m.Type.GroupJoin? && JoinEffective(s, d.name, m.Recipient, now) && id == d.groupId != "")
  }

  lemma CommandSilent(s: ServerState, ws: SocketId, m: FDaraChatMsg, newId: string, now: int, id: string)
    requires Inv(s) && ws in s.sockets && s.sockets[ws].connected && FreshId(s.groups, newId)
    ensures Silent(s, CommandStep(s, ws, m, newId, now), id) <==> Suppresses(s, s.sockets[ws], m, newId, now, id)
  {
    match m.Type
    case GroupInvite => InviteSilent(s, ws, m.Recipient, m.Message, newId, now, id);
    case GroupJoin => JoinSilent(s, ws, m.Recipient, now, id);
    case GroupDisband => DisbandTells(s, ws, id);
    case Alive => AliveTells(s, ws, m.Message, now, id);
    case _ => TalkTells(s, ws, m, newId, now, id);
  }

  // ------------------------------------------------------------------- steps and runs

  /** The event is a chat command that suppresses the announcement of group `id`: an invitation that
      starts the group, or a join that takes effect and gives the group up. */
  ghost predicate Suppressed(s: ServerState, e: Event, now: int, id: string) {
    && e.TextFrame? && e.ws in s.sockets && s.sockets[e.ws].connected && TryParseMessage(e.msg).Message?
    && Suppresses(s, s.sockets[e.ws], TryParseMessage(e.msg).msg, e.newId, now, id)
  }

  lemma NoCommandNoChange(s: ServerState, ws: SocketId, msg: string, parsed: Envelope.Parsed, login: Login, newId: string, now: int)
    requires SessionsLive(s) && ws in s.sockets && !KindOf(msg).LoginText? && (parsed.Rejected? || !s.sockets[ws].connected)
    ensures DispatchStep(s, ws, msg, parsed, login, newId, now).groups == s.groups
  {
  }

  lemma FrameSilent(s: ServerState, ws: SocketId, msg: string, login: Login, newId: string, now: int, id: string)
    requires Inv(s) && Legal(s, TextFrame(ws, msg, login, newId))
    ensures Silent(s, TextStep(s, ws, msg, login, newId, now), id) <==>
            Suppressed(s, TextFrame(ws, msg, login, newId), now, id)
  {
    var parsed := TryParseMessage(msg);
    if parsed.Message? {
      CommandNotReserved(msg);
      if s.sockets[ws].connected {
        DispatchedAsCommand(s, ws, msg, parsed.msg, login, newId, now);
        CommandSilent(s, ws, parsed.msg, newId, now, id);
      } else {
        NoCommandNoChange(s, ws, msg, parsed, login, newId, now);
      }
    } else if KindOf(msg).LoginText? {
      ConnectTells(s, ws, login, now, id);
    } else {
      NoCommandNoChange(s, ws, msg, parsed, login, newId, now);
    }
  }

  lemma StepSilent(s: ServerState, e: Event, now: int, id: string)
    requires Inv(s) && Legal(s, e)
    ensures Silent(s, Step(s, e, now), id) <==> Suppressed(s, e, now, id)
  {
    match e
    case Opened(ws) =>
    case TextFrame(ws, msg, login, newId) => FrameSilent(s, ws, msg, login, newId, now, id);
    case BinaryFrame(ws, data, valid, health) => BinaryTells(s, ws, data, valid, health, now, id);
    case Closed(ws) => CloseTells(s, ws, now, id);
  }

  /** On every run: a step that changes the record of a group publishes the new record on the
      group's topic, exactly unless it starts the group for an invitation or leaves it, a group of
      one, for another. */
  lemma RecordsAnnounced(run: Run, k: nat, id: string)
    requires run.Valid() && k < |run.events|
    ensures var s, s' := run.states[k], run.states[k + 1];
      RecordChanges(s.groups, s'.groups, id) && !Announced(s, s', id) <==> Suppressed(s, run.events[k], run.times[k], id)
  {
    RunKeepsInvariant(run, k);
    assert run.StepAt(k);
    StepSilent(run.states[k], run.events[k], run.times[k], id);
  }
}
