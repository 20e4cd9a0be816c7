/**
 Every event keeps the server invariant, handler by handler, and what each handler does to
 the memberships.
 */
module ServerKeeps {
  import opened Groups
  import opened ServerGroups
  import opened ServerSteps
  import opened ServerInvariant
  import opened Envelope = ChatEnvelope

  lemma OpenKeeps(s: ServerState, ws: SocketId)
    requires Inv(s) && ws !in s.sockets
    ensures Inv(OpenStep(s, ws))
  {
  }

  /** Closing retires the session, if the socket still owns it, and marks the member offline. */
  lemma CloseKeeps(s: ServerState, ws: SocketId, now: int)
    requires Inv(s) && ws in s.sockets
    ensures Inv(CloseStep(s, ws, now))
    ensures var s' := CloseStep(s, ws, now); var d := s.sockets[ws];
            && s'.sockets == s.sockets - {ws} && s'.invites == s.invites
            && s'.sessions == (if d.connected then s.sessions - {d.name} else s.sessions)
            && s'.groups == (if d.connected then SetOnline(s.groups, d.name, false, now) else s.groups)
  {
    var d := s.sockets[ws];
    var rest := s.(sockets := s.sockets - {ws});
    if d.connected {
      OnlineFacts(s.groups, d.name, false, now, s.sessions.Keys);
      var s' := rest.(sessions := s.sessions - {d.name}, groups := SetOnline(s.groups, d.name, false, now));
      assert s'.sessions.Keys == s.sessions.Keys - {d.name};
      SessionsAfterClose(s, s', ws);
      SocketsCarryOver(s, s');
      assert SameCore(s', CloseStep(s, ws, now));
      SameCoreInv(s', CloseStep(s, ws, now));
    } else {
      assert SessionsOk(rest);
      SocketsCarryOver(s, rest);
    }
  }

  lemma SessionsAfterClose(s: ServerState, s': ServerState, ws: SocketId)
    requires SessionsOk(s) && ws in s.sockets && s.sockets[ws].connected
    requires s'.sockets == s.sockets - {ws} && s'.sessions == s.sessions - {s.sockets[ws].name}
    ensures SessionsOk(s')
  {
    forall w | w in s'.sockets && s'.sockets[w].connected
      ensures var n := s'.sockets[w].name; n != "" && n in s'.sessions && s'.sessions[n] == w
    {
      assert s.sockets[w].name != s.sockets[ws].name;
    }
  }

  lemma SocketsCarryOver(s: ServerState, s': ServerState)
    requires SocketsOk(s)
    requires forall w :: w in s'.sockets ==> w in s.sockets && s'.sockets[w] == s.sockets[w]
    requires forall n :: GroupOf(s'.groups, n) == GroupOf(s.groups, n)
    ensures SocketsOk(s')
  {
  }

  lemma SessionsAfterLogin(t: ServerState, s': ServerState, ws: SocketId, name: string)
    requires SessionsOk(t) && ws in t.sockets && !t.sockets[ws].connected && name != "" && name !in t.sessions
    requires s'.sessions == t.sessions[name := ws] && s'.sockets.Keys == t.sockets.Keys
    requires forall w :: w in t.sockets && w != ws ==> s'.sockets[w] == t.sockets[w]
    requires s'.sockets[ws].connected && s'.sockets[ws].name == name
    ensures SessionsOk(s')
  {
  }

  lemma SocketsAfterLogin(t: ServerState, s': ServerState, ws: SocketId)
    requires SocketsOk(t) && ws in t.sockets && s'.sockets.Keys == t.sockets.Keys
    requires forall w :: w in t.sockets && w != ws ==> s'.sockets[w] == t.sockets[w]
    requires forall n :: GroupOf(s'.groups, n) == GroupOf(t.groups, n)
    requires SocketOk(ws, s'.sockets[ws]) && s'.sockets[ws].groupId == GroupOf(t.groups, s'.sockets[ws].name)
    ensures SocketsOk(s')
  {
  }

  function LoggedIn(d: DaraSocket, name: string, zone: string, id: string): DaraSocket {
    SubscribeStandard(d.(name := name, zone := zone, connected := true, groupId := id))
  }

  lemma LoggedInOk(ws: SocketId, d: DaraSocket, name: string, zone: string, id: string)
    requires SocketOk(ws, d) && !d.connected && (id != "" ==> GROUP_PREFIX <= id)
    ensures SocketOk(ws, LoggedIn(d, name, zone, id))
  {
    FreshSocketOk(ws, d, name, zone, id);
    SubscribeStandardKeeps(ws, d.(name := name, zone := zone, connected := true, groupId := id));
  }

  lemma LoggedInData(d: DaraSocket, name: string, zone: string, id: string)
    ensures var d' := LoggedIn(d, name, zone, id);
            d'.name == name && d'.zone == zone && d'.groupId == id && d'.connected
  {
  }

  lemma EstablishCore(t: ServerState, s': ServerState, ws: SocketId, name: string, d: DaraSocket, now: int)
    requires Inv(t) && ws in t.sockets && !t.sockets[ws].connected && name != "" && name !in t.sessions
    requires SocketOk(ws, d) && d.connected && d.name == name && d.groupId == GroupOf(t.groups, name)
    requires s'.sessions == t.sessions[name := ws] && s'.sockets == t.sockets[ws := d]
    requires s'.groups == SetOnline(t.groups, name, true, now)
    ensures Inv(s')
  {
    OnlineFacts(t.groups, name, true, now, t.sessions.Keys);
    assert s'.sessions.Keys == t.sessions.Keys + {name};
    SessionsAfterLogin(t, s', ws, name);
    SocketsAfterLogin(t, s', ws);
  }

  lemma EstablishKeeps(t: ServerState, ws: SocketId, name: string, zone: string, now: int)
    requires Inv(t) && ws in t.sockets && !t.sockets[ws].connected
    requires name != "" && name !in t.sessions
    ensures Inv(EstablishSession(WithSocket(t, ws, t.sockets[ws].(name := name, zone := zone, connected := true)), ws, now))
  {
    var id := GroupOf(t.groups, name);
    var d := t.sockets[ws].(name := name, zone := zone, connected := true);
    LoggedInOk(ws, t.sockets[ws], name, zone, id);
    LoggedInData(t.sockets[ws], name, zone, id);
    assert t.sockets[ws := d][ws := LoggedIn(t.sockets[ws], name, zone, id)]
        == t.sockets[ws := LoggedIn(t.sockets[ws], name, zone, id)];
    EstablishCore(t, EstablishSession(WithSocket(t, ws, d), ws, now), ws, name,
                  LoggedIn(t.sockets[ws], name, zone, id), now);
  }

  lemma FreshSocketOk(ws: SocketId, d: DaraSocket, name: string, zone: string, id: string)
    requires SocketOk(ws, d) && !d.connected
    ensures SocketOk(ws, d.(name := name, zone := zone, connected := true, groupId := id))
    ensures NoSlot(d)
  {
    var d' := d.(name := name, zone := zone, connected := true, groupId := id);
    assert forall i :: !Holds(d', i);
    assert forall t :: !InUsedSlot(d, t);
  }

  /** Closing one socket does not depend on what another socket's record says, its
      subscriptions apart. */
  lemma CloseCommutes(s: ServerState, ws: SocketId, d: DaraSocket, prev: SocketId, now: int)
    requires ws in s.sockets && prev in s.sockets && prev != ws
    requires d.subscribed == s.sockets[ws].subscribed
    ensures CloseStep(WithSocket(s, ws, d), prev, now) == WithSocket(CloseStep(s, prev, now), ws, d)
  {
    var s1 := s.(sockets := s.sockets - {prev});
    var s2 := WithSocket(s, ws, d).(sockets := WithSocket(s, ws, d).sockets - {prev});
    assert s2 == WithSocket(s1, ws, d);
    var c := s.sockets[prev];
    var groups, sessions := SetOnline(s.groups, c.name, false, now), s.sessions - {c.name};
    SameReceivers(s1.(sessions := sessions, groups := groups), s2.(sessions := sessions, groups := groups),
                  GroupTopic(c.groupId));
  }

  lemma SameReceivers(s: ServerState, t: ServerState, topic: string)
    requires s.sockets.Keys == t.sockets.Keys
    requires forall w :: w in s.sockets ==> s.sockets[w].subscribed == t.sockets[w].subscribed
    ensures Receivers(s, topic) == Receivers(t, topic)
  {
  }

  /** Login, including the reconnect that retires the old socket inside the new one's step. */
  lemma ConnectKeeps(s: ServerState, ws: SocketId, login: Login, now: int)
    requires Inv(s) && ws in s.sockets && (login.Accepted? ==> login.name != "")
    ensures Inv(ConnectStep(s, ws, login, now))
  {
    var d := s.sockets[ws];
    if d.connected || login.Refused? {
      CloseKeeps(s, ws, now);
    } else {
      var d1 := d.(name := login.name, zone := login.zone, connected := true);
      if login.name in s.sessions {
        var prev := s.sessions[login.name];
        assert s.sockets[prev].connected && prev != ws;
        CloseKeeps(s, prev, now);
        CloseCommutes(s, ws, d1, prev, now);
        EstablishKeeps(CloseStep(s, prev, now), ws, login.name, login.zone, now);
      } else {
        EstablishKeeps(s, ws, login.name, login.zone, now);
      }
    }
  }

  lemma SubscribeStepKeeps(s: ServerState, ws: SocketId, t: string)
    requires Inv(s) && ws in s.sockets && s.sockets[ws].connected
    ensures Inv(SubscribeStep(s, ws, t))
  {
    CachedId(s, ws);
    if ValidTopicName(t) {
      SubscribeKeeps(ws, s.sockets[ws], t);
      LocalChangeInv(s, SubscribeStep(s, ws, t), ws);
    }
  }

  lemma UnsubscribeStepKeeps(s: ServerState, ws: SocketId, t: string)
    requires Inv(s) && ws in s.sockets && s.sockets[ws].connected
    ensures Inv(UnsubscribeStep(s, ws, t))
  {
    CachedId(s, ws);
    UnsubscribeKeeps(ws, s.sockets[ws], t);
    LocalChangeInv(s, UnsubscribeStep(s, ws, t), ws);
  }

  lemma EnsureMoves(s: ServerState, ws: SocketId, newId: string, now: int)
    requires Inv(s) && ws in s.sockets && s.sockets[ws].connected && FreshId(s.groups, newId)
    ensures var s' := EnsureGroup(s, ws, newId, now);
            && s'.sockets[ws].groupId != "" && s'.sockets.Keys == s.sockets.Keys
            && s'.sockets[ws].name == s.sockets[ws].name && s'.sockets[ws].connected
            && s'.invites == s.invites
            && OnlyMoved(s.groups, s'.groups, s.sockets[ws].name, s'.sockets[ws].groupId)
  {
    CachedId(s, ws);
    if s.sockets[ws].groupId == "" {
      StartFacts(s.groups, s.sockets[ws].name, newId, now, s.sessions.Keys);
    }
  }

  /** An implicitly started group always starts, with the inviter as its only member. */
  lemma EnsureGroupKeeps(s: ServerState, ws: SocketId, newId: string, now: int)
    requires Inv(s) && ws in s.sockets && s.sockets[ws].connected && FreshId(s.groups, newId)
    ensures Inv(EnsureGroup(s, ws, newId, now))
    ensures var s' := EnsureGroup(s, ws, newId, now);
            && s'.sockets[ws].groupId != "" && s'.sockets.Keys == s.sockets.Keys
            && s'.sockets[ws].name == s.sockets[ws].name && s'.sockets[ws].connected
            && s'.invites == s.invites
            && OnlyMoved(s.groups, s'.groups, s.sockets[ws].name, s'.sockets[ws].groupId)
  {
    EnsureMoves(s, ws, newId, now);
    CachedId(s, ws);
    if s.sockets[ws].groupId == "" {
      StartFacts(s.groups, s.sockets[ws].name, newId, now, s.sessions.Keys);
      EnteredKeeps(s, EnsureGroup(s, ws, newId, now), ws, newId);
    }
  }

  lemma InviteKeeps(s: ServerState, ws: SocketId, invited: string, text: string, newId: string, now: int)
    requires Inv(s) && ws in s.sockets && s.sockets[ws].connected && FreshId(s.groups, newId)
    ensures Inv(InviteStep(s, ws, invited, text, newId, now))
  {
    EnsureGroupKeeps(s, ws, newId, now);
    OfferKeeps(EnsureGroup(s, ws, newId, now), ws, s.sockets[ws].name, invited, text, now);
  }

  lemma OfferCore(s: ServerState, ws: SocketId, leader: string, invited: string, text: string, now: int)
    requires ws in s.sockets
    ensures SameCore(s, OfferInvite(s, ws, leader, invited, text, now))
  {
  }

  lemma OfferKeeps(s: ServerState, ws: SocketId, leader: string, invited: string, text: string, now: int)
    requires Inv(s) && ws in s.sockets
    ensures Inv(OfferInvite(s, ws, leader, invited, text, now))
  {
    OfferCore(s, ws, leader, invited, text, now);
    SameCoreInv(s, OfferInvite(s, ws, leader, invited, text, now));
  }

  lemma LeaveSoloDoes(s: ServerState, ws: SocketId)
    requires ws in s.sockets && s.sockets[ws].connected
    ensures var s' := LeaveSolo(s, ws); var d := s.sockets[ws];
            && s'.sockets.Keys == s.sockets.Keys && s'.sockets[ws].name == d.name && s'.sockets[ws].connected
            && s'.sent == s.sent
            && (InfoByName(s.groups, d.name).memberCount != 1 ==> s' == s)
            && (InfoByName(s.groups, d.name).memberCount == 1 ==>
                  s'.sockets[ws].groupId == "" && s'.groups == LeaveGroup(s.groups, d.name).members)
  {
  }

  lemma LeaveSoloKeeps(s: ServerState, ws: SocketId)
    requires Inv(s) && ws in s.sockets && s.sockets[ws].connected
    ensures Inv(LeaveSolo(s, ws))
    ensures var s' := LeaveSolo(s, ws); var d := s.sockets[ws];
            && s'.sockets.Keys == s.sockets.Keys && s'.sockets[ws].name == d.name && s'.sockets[ws].connected
            && s'.sent == s.sent
            && (InfoByName(s.groups, d.name).memberCount != 1 ==> s' == s)
            && (InfoByName(s.groups, d.name).memberCount == 1 ==>
                  s'.sockets[ws].groupId == "" && s'.groups == LeaveGroup(s.groups, d.name).members)
  {
    LeaveSoloDoes(s, ws);
    if InfoByName(s.groups, s.sockets[ws].name).memberCount == 1 {
      LeftKeeps(s, LeaveSolo(s, ws), ws);
    }
  }

  /** The socket's character has left its group. */
  lemma LeftKeeps(s: ServerState, s': ServerState, ws: SocketId)
    requires Inv(s) && ws in s.sockets && s.sockets[ws].connected && s'.sessions == s.sessions
    requires s'.sockets == s.sockets[ws := UnsubscribeGroup(s.sockets[ws]).(groupId := "")]
    requires s'.groups == LeaveGroup(s.groups, s.sockets[ws].name).members
    ensures Inv(s') && OnlyMoved(s.groups, s'.groups, s.sockets[ws].name, "")
  {
    CachedId(s, ws);
    LeaveFacts(s.groups, s.sockets[ws].name, s.sessions.Keys);
    UnsubscribeGroupKeeps(ws, s.sockets[ws]);
    LocalChangeInv(s, s', ws);
  }

  /** `name` is in `id` afterwards; the group of every other name is as before. */
  ghost predicate Moves(s: ServerState, s': ServerState, name: string, id: string) {
    OnlyMoved(s.groups, s'.groups, name, id)
  }

  ghost predicate NobodyMoves(s: ServerState, s': ServerState) {
    forall n :: GroupOf(s'.groups, n) == GroupOf(s.groups, n)
  }

  /** Joining is all-or-nothing. When the checks pass and the joiner has no group or is alone
      in it, the join cannot fail and moves exactly the joiner into the inviter's group; in
      every other case nobody's membership changes. */
  lemma JoinAllOrNothing(s: ServerState, ws: SocketId, inviter: string, now: int)
    requires Inv(s) && ws in s.sockets && s.sockets[ws].connected
    ensures var name := s.sockets[ws].name; var s' := JoinStep(s, ws, inviter, now);
            && Inv(s')
            && (if JoinAllowed(s.(invites := PruneInvites(s.invites, now)), name, inviter) &&
                   InfoByName(s.groups, name).memberCount <= 1
                then Moves(s, s', name, GroupOf(s.groups, inviter)) && GroupOf(s.groups, inviter) != ""
                     && GroupOf(s.groups, inviter) != GroupOf(s.groups, name)
                else NobodyMoves(s, s') && s'.sockets == s.sockets)
  {
    var name := s.sockets[ws].name;
    var s1 := s.(invites := PruneInvites(s.invites, now));
    SameCoreInv(s, s1);
    if JoinAllowed(s1, name, inviter) {
      var s2 := LeaveSolo(s1, ws);
      LeaveSoloKeeps(s1, ws);
      CachedId(s1, ws);
      if InfoByName(s.groups, name).memberCount <= 1 {
        JoinEnters(s1, s2, ws, inviter, now);
      } else {
        assert s2 == s1 && EnterGroup(s2, ws, inviter, now) == s1;
      }
    }
  }

  /** The joiner has left its group of one, if it had one; the group it is about to enter still
      has room. */
  lemma SoloLeft(s: ServerState, ws: SocketId, inviter: string)
    requires Inv(s) && ws in s.sockets && s.sockets[ws].connected
    requires JoinAllowed(s, s.sockets[ws].name, inviter) && InfoByName(s.groups, s.sockets[ws].name).memberCount <= 1
    ensures var s', name, id := LeaveSolo(s, ws), s.sockets[ws].name, GroupOf(s.groups, inviter);
      && OnlyMoved(s.groups, s'.groups, name, "") && inviter != name
      && id != "" && |Roster(s'.groups, id)| < MAX_GROUP_MEMBERS
  {
    var d := s.sockets[ws];
    CachedId(s, ws);
    if d.groupId != "" {
      MemberGroupNonempty(s.groups, d.name);
      LeaveFacts(s.groups, d.name, s.sessions.Keys);
      SoloLeaveKeepsRosters(s.groups, d.name, GroupOf(s.groups, inviter));
    }
  }

  lemma JoinEnters(s1: ServerState, s2: ServerState, ws: SocketId, inviter: string, now: int)
    requires Inv(s1) && ws in s1.sockets && s1.sockets[ws].connected
    requires Inv(s2) && s2 == LeaveSolo(s1, ws)
    requires ws in s2.sockets && s2.sockets[ws].connected && s2.sockets[ws].name == s1.sockets[ws].name
    requires JoinAllowed(s1, s1.sockets[ws].name, inviter)
    requires InfoByName(s1.groups, s1.sockets[ws].name).memberCount <= 1
    ensures Inv(EnterGroup(s2, ws, inviter, now))
    ensures Moves(s1, EnterGroup(s2, ws, inviter, now), s1.sockets[ws].name, GroupOf(s1.groups, inviter))
    ensures EnterGroup(s2, ws, inviter, now).sockets[ws].groupId == GroupOf(s1.groups, inviter)
  {
    SoloLeft(s1, ws, inviter);
    EnterKeeps(s2, ws, inviter, now);
    MovedTwice(s1, s2, EnterGroup(s2, ws, inviter, now), s1.sockets[ws].name, "", GroupOf(s1.groups, inviter));
  }

  lemma MovedTwice(s: ServerState, s1: ServerState, s2: ServerState, name: string, id1: string, id2: string)
    requires Moves(s, s1, name, id1) && Moves(s1, s2, name, id2)
    ensures Moves(s, s2, name, id2)
  {
  }

  /** The socket's character, without a group so far, is in group `id` now. */
  lemma EnteredKeeps(s: ServerState, s': ServerState, ws: SocketId, id: string)
    requires Inv(s) && ws in s.sockets && s.sockets[ws].connected && s.sockets[ws].groupId == "" && GROUP_PREFIX <= id
    requires s'.sessions == s.sessions && s'.sockets == s.sockets[ws := SubscribeGroup(s.sockets[ws].(groupId := id))]
    requires GroupsOk(s'.groups) && Presence(s'.groups, s.sessions.Keys)
    requires OnlyMoved(s.groups, s'.groups, s.sockets[ws].name, id)
    ensures Inv(s')
  {
    CachedId(s, ws);
    CachedIdIrrelevant(ws, s.sockets[ws], id);
    SubscribeGroupKeeps(ws, s.sockets[ws].(groupId := id));
    LocalChangeInv(s, s', ws);
  }

  lemma EnterKeeps(s: ServerState, ws: SocketId, inviter: string, now: int)
    requires Inv(s) && ws in s.sockets && s.sockets[ws].connected && GroupOf(s.groups, s.sockets[ws].name) == ""
    requires GroupOf(s.groups, inviter) != "" && |Roster(s.groups, GroupOf(s.groups, inviter))| < MAX_GROUP_MEMBERS
    ensures var s' := EnterGroup(s, ws, inviter, now);
            && Inv(s') && Moves(s, s', s.sockets[ws].name, GroupOf(s.groups, inviter))
            && s'.sockets[ws].groupId == GroupOf(s.groups, inviter)
  {
    CachedId(s, ws);
    var id := GroupOf(s.groups, inviter);
    JoinFacts(s.groups, s.sockets[ws].name, inviter, now, s.sessions.Keys);
    assert GROUP_PREFIX <= id;
    EnteredKeeps(s, EnterGroup(s, ws, inviter, now), ws, id);
  }

  lemma DisbandKeeps(s: ServerState, ws: SocketId)
    requires Inv(s) && ws in s.sockets && s.sockets[ws].connected
    ensures Inv(DisbandStep(s, ws))
    ensures Moves(s, DisbandStep(s, ws), s.sockets[ws].name, "")
  {
    CachedId(s, ws);
    if s.sockets[ws].groupId != "" {
      LeftKeeps(s, DisbandStep(s, ws), ws);
    }
  }

  lemma MarkedAliveKeeps(s: ServerState, s': ServerState, ws: SocketId, health: string, now: int)
    requires Inv(s) && ws in s.sockets && s.sockets[ws].connected
    requires s'.sockets == s.sockets && s'.sessions == s.sessions
    requires s'.groups == MarkAlive(s.groups, s.sockets[ws].name, s.sockets[ws].zone, health, now)
    ensures Inv(s')
  {
    CachedId(s, ws);
    AliveFacts(s.groups, s.sockets[ws].name, s.sockets[ws].zone, health, now, s.sessions.Keys);
    SocketsCarryOver(s, s');
  }

  lemma AliveKeeps(s: ServerState, ws: SocketId, health: string, now: int)
    requires Inv(s) && ws in s.sockets && s.sockets[ws].connected
    ensures Inv(AliveStep(s, ws, health, now))
  {
    MarkedAliveKeeps(s, AliveStep(s, ws, health, now), ws, health, now);
  }

  lemma BinaryKeeps(s: ServerState, ws: SocketId, data: string, valid: bool, health: string, now: int)
    requires Inv(s) && ws in s.sockets
    ensures Inv(BinaryStep(s, ws, data, valid, health, now))
  {
    if s.sockets[ws].connected && s.sockets[ws].groupId != "" && valid {
      MarkedAliveKeeps(s, BinaryStep(s, ws, data, valid, health, now), ws, health, now);
    }
  }

  lemma CommandKeeps(s: ServerState, ws: SocketId, m: FDaraChatMsg, newId: string, now: int)
    requires Inv(s) && ws in s.sockets && s.sockets[ws].connected && FreshId(s.groups, newId)
    ensures Inv(CommandStep(s, ws, m, newId, now))
  {
    match m.Type
    case GroupInvite => InviteKeeps(s, ws, m.Recipient, m.Message, newId, now);
    case GroupJoin => JoinAllOrNothing(s, ws, m.Recipient, now);
    case GroupDisband => DisbandKeeps(s, ws);
    case Alive => AliveKeeps(s, ws, m.Message, now);
    case _ => TalkKeeps(s, ws, m, newId, now);
  }

  lemma TalkKeeps(s: ServerState, ws: SocketId, m: FDaraChatMsg, newId: string, now: int)
    requires Inv(s) && ws in s.sockets && !GroupCommand(m.Type)
    ensures Inv(CommandStep(s, ws, m, newId, now))
  {
    OnlyPublishes(s, ws, m, newId, now);
    SameCoreInv(s, CommandStep(s, ws, m, newId, now));
  }

  predicate GroupCommand(t: EChatCmdType) {
    t.GroupInvite? || t.GroupJoin? || t.GroupDisband? || t.Alive?
  }

  lemma OnlyPublishes(s: ServerState, ws: SocketId, m: FDaraChatMsg, newId: string, now: int)
    requires ws in s.sockets && !GroupCommand(m.Type)
    ensures SameCore(s, CommandStep(s, ws, m, newId, now))
  {
  }

  lemma LegacyKeeps(s: ServerState, msg: string)
    requires Inv(s) && |msg| >= 8
    ensures Inv(LegacyPublishStep(s, msg))
  {
    SameCoreInv(s, LegacyPublishStep(s, msg));
  }

  lemma OtherTextKeeps(s: ServerState, ws: SocketId, parsed: Parsed, newId: string, now: int)
    requires Inv(s) && ws in s.sockets && s.sockets[ws].connected && FreshId(s.groups, newId)
    ensures Inv(if parsed.Message? then CommandStep(s, ws, parsed.msg, newId, now) else s)
  {
    if parsed.Message? {
      CommandKeeps(s, ws, parsed.msg, newId, now);
    }
  }

  lemma KindKeeps(s: ServerState, ws: SocketId, k: TextKind, msg: string, parsed: Parsed, login: Login, newId: string, now: int)
    requires Inv(s) && Legal(s, TextFrame(ws, msg, login, newId)) && LongEnough(k, msg)
    ensures Inv(StepOfKind(s, ws, k, msg, parsed, login, newId, now))
  {
    if k.LoginText? {
      ConnectKeeps(s, ws, login, now);
    } else if s.sockets[ws].connected {
      match k
      case SubscribeText => SubscribeStepKeeps(s, ws, msg[10..]);
      case UnsubscribeText => UnsubscribeStepKeeps(s, ws, msg[12..]);
      case LegacyText => LegacyKeeps(s, msg);
      case OtherText => OtherTextKeeps(s, ws, parsed, newId, now);
      case ScheduleText =>
    }
  }

  lemma DispatchKeeps(s: ServerState, ws: SocketId, msg: string, parsed: Parsed, login: Login, newId: string, now: int)
    requires Inv(s) && Legal(s, TextFrame(ws, msg, login, newId))
    ensures Inv(DispatchStep(s, ws, msg, parsed, login, newId, now))
  {
    KindKeeps(s, ws, KindOf(msg), msg, parsed, login, newId, now);
  }

  lemma StepKeeps(s: ServerState, e: Event, now: int)
    requires Inv(s) && Legal(s, e)
    ensures Inv(Step(s, e, now))
  {
    match e
    case Opened(ws) => OpenKeeps(s, ws);
    case TextFrame(ws, msg, login, newId) => DispatchKeeps(s, ws, msg, TryParseMessage(msg), login, newId, now);
    case BinaryFrame(ws, data, valid, health) => BinaryKeeps(s, ws, data, valid, health, now);
    case Closed(ws) => CloseKeeps(s, ws, now);
  }
}
