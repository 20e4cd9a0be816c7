/**
 Whole runs of the chat server: the invariant, who receives what, and where
 the right to join a group comes from.
 */
module ServerRuns {
  import opened Text
  import opened Groups
  import opened ServerGroups
  import opened ServerSteps
  import opened ServerInvariant
  import opened ServerKeeps
  import opened Envelope = ChatEnvelope

  /** States, events and clock readings of a run that starts with an empty server. The clock
      need not be monotone. */
  datatype Run = Run(states: seq<ServerState>, events: seq<Event>, times: seq<int>) {
    ghost predicate Valid() {
      && |states| == |events| + 1 && |times| == |events| && states[0] == INITIAL
      && forall k :: 0 <= k < |events| ==> StepAt(k)
    }

    ghost predicate StepAt(k: int)
      requires |states| == |events| + 1 && |times| == |events| && 0 <= k < |events|
    {
      SessionsLive(states[k]) && Legal(states[k], events[k]) && states[k + 1] == Step(states[k], events[k], times[k])
    }
  }

  lemma {:induction false} RunKeepsInvariant(run: Run, k: nat)
    requires run.Valid() && k <= |run.events|
    ensures Inv(run.states[k])
  {
    if k > 0 {
      RunKeepsInvariant(run, k - 1);
      assert run.StepAt(k - 1);
      StepKeeps(run.states[k - 1], run.events[k - 1], run.times[k - 1]);
    }
  }

  /** In every reachable state: the session table and the live authenticated sockets are in
      bijection; each such socket caches the id of its character's group; and a stored
      member is shown online exactly while its name has a session. */
  lemma SessionsAgree(run: Run, k: nat)
    requires run.Valid() && k <= |run.events|
    ensures var s := run.states[k];
            && (forall n :: n in s.sessions ==> s.sessions[n] in s.sockets && s.sockets[s.sessions[n]].connected
                                                && s.sockets[s.sessions[n]].name == n)
            && (forall ws :: ws in s.sockets && s.sockets[ws].connected ==>
                  && s.sockets[ws].name in s.sessions && s.sessions[s.sockets[ws].name] == ws
                  && s.sockets[ws].groupId == InfoByName(s.groups, s.sockets[ws].name).groupId)
            && (forall m :: m in s.groups ==> (m.isOnline <==> m.name in s.sessions))
  {
    RunKeepsInvariant(run, k);
  }

  // ----------------------------------------------------------------- delivery

  /** Every socket the broker would reach for a topic is one the topic is meant for. */
  ghost predicate MeantFor(s: ServerState, topic: string, ws: SocketId) {
    && ws in s.sockets && topic != ""
    && (GROUP_PREFIX <= topic ==>
          s.sockets[ws].connected && s.sockets[ws].groupId == topic && GroupOf(s.groups, s.sockets[ws].name) == topic)
    && (ZONE_PREFIX <= topic ==> s.sockets[ws].connected && topic == ZONE_PREFIX + s.sockets[ws].zone)
    && (TELL_PREFIX <= topic ==> s.sockets[ws].connected && topic == TELL_PREFIX + ToLower(s.sockets[ws].name))
  }

  lemma PlaceholderIsNoManagedTopic(ws: SocketId, t: string)
    requires t in Placeholders(ws)
    ensures t != "" && !(GROUP_PREFIX <= t) && !(ZONE_PREFIX <= t) && !(TELL_PREFIX <= t)
  {
    var i :| 0 <= i < SLOTS && t == Placeholder(ws, i);
    assert t[0] == PrintNat(ws)[0] && IsDigit(t[0]);
  }

  lemma ReceiversAreMeant(s: ServerState, topic: string, ws: SocketId)
    requires Inv(s) && ws in Receivers(s, topic)
    ensures MeantFor(s, topic, ws)
  {
    var d := s.sockets[ws];
    assert SocketOk(ws, d);
    if topic in Placeholders(ws) {
      PlaceholderIsNoManagedTopic(ws, topic);
    } else {
      assert InUsedSlot(d, topic);
      var i :| Holds(d, i) && d.topics[i].topic == topic;
      assert TopicFits(d, topic) && d.connected;
    }
  }

  /** The log only grows, and what was added reached no one beyond the current subscribers. */
  ghost predicate Sends(s: ServerState, s': ServerState) {
    && s.sent <= s'.sent
    && forall i :: |s.sent| <= i < |s'.sent| ==> s'.sent[i].receivers <= Receivers(s', s'.sent[i].topic)
  }

  ghost predicate KeepsSubscribers(s: ServerState, s': ServerState) {
    forall ws :: ws in s.sockets ==> ws in s'.sockets && s.sockets[ws].subscribed <= s'.sockets[ws].subscribed
  }

  lemma SendsThen(s: ServerState, s1: ServerState, s2: ServerState)
    requires Sends(s, s1) && Sends(s1, s2) && KeepsSubscribers(s1, s2)
    ensures Sends(s, s2)
  {
    forall i | |s.sent| <= i < |s2.sent|
      ensures s2.sent[i].receivers <= Receivers(s2, s2.sent[i].topic)
    {
      if i < |s1.sent| {
        assert s2.sent[i] == s1.sent[i];
        assert Receivers(s1, s1.sent[i].topic) <= Receivers(s2, s1.sent[i].topic);
      }
    }
  }

  lemma PublishSends(s: ServerState, topic: string, payload: string)
    ensures Sends(s, Publish(s, topic, payload)) && KeepsSubscribers(s, Publish(s, topic, payload))
  {
  }

  lemma CloseSends(s: ServerState, ws: SocketId, now: int)
    requires ws in s.sockets
    ensures Sends(s, CloseStep(s, ws, now))
  {
  }

  lemma SubscribeGrows(d: DaraSocket)
    ensures d.subscribed <= SubscribeStandard(d).subscribed
  {
  }

  lemma EstablishSends(s: ServerState, ws: SocketId, now: int)
    requires ws in s.sockets
    ensures Sends(s, EstablishSession(s, ws, now)) && KeepsSubscribers(s, EstablishSession(s, ws, now))
  {
    SubscribeGrows(s.sockets[ws].(groupId := GroupOf(s.groups, s.sockets[ws].name)));
  }

  lemma ConnectSends(s: ServerState, ws: SocketId, login: Login, now: int)
    requires Inv(s) && ws in s.sockets
    ensures Sends(s, ConnectStep(s, ws, login, now))
  {
    var d := s.sockets[ws];
    if d.connected || login.Refused? {
      CloseSends(s, ws, now);
    } else {
      var s1 := WithSocket(s, ws, d.(name := login.name, zone := login.zone, connected := true));
      if login.name in s.sessions {
        var prev := s.sessions[login.name];
        assert s.sockets[prev].connected && prev != ws;
        CloseSends(s1, prev, now);
        var s2 := CloseStep(s1, prev, now);
        EstablishSends(s2, ws, now);
        SendsThen(s1, s2, EstablishSession(s2, ws, now));
      } else {
        EstablishSends(s1, ws, now);
      }
    }
  }

  lemma InviteSends(s: ServerState, ws: SocketId, invited: string, text: string, newId: string, now: int)
    requires ws in s.sockets
    ensures Sends(s, InviteStep(s, ws, invited, text, newId, now))
  {
    assert EnsureGroup(s, ws, newId, now).sent == s.sent;
  }

  lemma JoinSends(s: ServerState, ws: SocketId, inviter: string, now: int)
    requires ws in s.sockets
    ensures Sends(s, JoinStep(s, ws, inviter, now))
  {
    var s1 := s.(invites := PruneInvites(s.invites, now));
    assert LeaveSolo(s1, ws).sent == s.sent;
  }

  lemma DisbandSends(s: ServerState, ws: SocketId)
    requires ws in s.sockets
    ensures Sends(s, DisbandStep(s, ws))
  {
    var d := s.sockets[ws];
    if d.groupId != "" {
      var topic := GroupTopic(d.groupId);
      var s1 := WithSocket(s, ws, UnsubscribeGroup(d).(groupId := ""))
        .(groups := LeaveGroup(s.groups, d.name).members,
          invites := InvitesAfterLeaving(s.groups, s.invites, d.name));
      var text := Serialize(FDaraChatMsg(EChatCmdType.GroupDisbandInfo, d.name, "", "left the group"));
      var s2 := Publish(s1, topic, text);
      PublishSends(s1, topic, text);
      PublishSends(s2, GroupTopic(topic), GroupUpdateText(s2.groups, topic));
      SendsThen(s1, s2, DisbandStep(s, ws));
    }
  }

  lemma CommandSends(s: ServerState, ws: SocketId, m: FDaraChatMsg, newId: string, now: int)
    requires ws in s.sockets
    ensures Sends(s, CommandStep(s, ws, m, newId, now))
  {
    match m.Type
    case GroupInvite => InviteSends(s, ws, m.Recipient, m.Message, newId, now);
    case GroupJoin => JoinSends(s, ws, m.Recipient, now);
    case GroupDisband => DisbandSends(s, ws);
    case _ =>
  }

  lemma LocalSends(s: ServerState, ws: SocketId, d: DaraSocket)
    requires ws in s.sockets
    ensures Sends(s, WithSocket(s, ws, d))
  {
  }

  lemma LegacySends(s: ServerState, msg: string)
    requires |msg| >= 8
    ensures Sends(s, LegacyPublishStep(s, msg))
  {
    var sep := FindFrom(msg, 8);
    if sep < |msg| {
      PublishSends(s, msg[8..sep], msg[8..]);
    }
  }

  lemma KindSends(s: ServerState, ws: SocketId, k: TextKind, msg: string, parsed: Parsed, login: Login, newId: string, now: int)
    requires Inv(s) && ws in s.sockets && LongEnough(k, msg)
    ensures Sends(s, StepOfKind(s, ws, k, msg, parsed, login, newId, now))
  {
    if k.LoginText? {
      ConnectSends(s, ws, login, now);
    } else if s.sockets[ws].connected {
      match k
      case SubscribeText => LocalSends(s, ws, SubscribeTo(s.sockets[ws], msg[10..]));
      case UnsubscribeText => LocalSends(s, ws, UnsubscribeFrom(s.sockets[ws], msg[12..]));
      case LegacyText => LegacySends(s, msg);
      case OtherText =>
        if parsed.Message? {
          CommandSends(s, ws, parsed.msg, newId, now);
        }
      case ScheduleText =>
    }
  }

  lemma DispatchSends(s: ServerState, ws: SocketId, msg: string, parsed: Parsed, login: Login, newId: string, now: int)
    requires Inv(s) && ws in s.sockets
    ensures Sends(s, DispatchStep(s, ws, msg, parsed, login, newId, now))
  {
    KindSends(s, ws, KindOf(msg), msg, parsed, login, newId, now);
  }

  lemma StepSends(s: ServerState, e: Event, now: int)
    requires Inv(s) && Legal(s, e)
    ensures Sends(s, Step(s, e, now))
  {
    match e
    case Opened(ws) =>
    case TextFrame(ws, msg, login, newId) => DispatchSends(s, ws, msg, TryParseMessage(msg), login, newId, now);
    case BinaryFrame(ws, data, valid, health) =>
    case Closed(ws) => CloseSends(s, ws, now);
  }

  /** On every run, each publication made by step k reached only sockets it was meant for:
      on a group topic only current members of that group, on `tell_x` only sockets whose
      lower-cased name is x, on `zone_z` only sockets logged in with zone z. */
  lemma DeliverySafety(run: Run, k: nat, i: nat, ws: SocketId)
    requires run.Valid() && k < |run.events|
    requires |run.states[k].sent| <= i < |run.states[k + 1].sent|
    requires ws in run.states[k + 1].sent[i].receivers
    ensures MeantFor(run.states[k + 1], run.states[k + 1].sent[i].topic, ws)
  {
    RunKeepsInvariant(run, k);
    RunKeepsInvariant(run, k + 1);
    assert run.StepAt(k);
    StepSends(run.states[k], run.events[k], run.times[k]);
    ReceiversAreMeant(run.states[k + 1], run.states[k + 1].sent[i].topic, ws);
  }

  // --------------------------------------------------------------- provenance

  /** A text frame of a live authenticated socket, read as command `t` to `recipient`. */
  ghost predicate IsCommand(s: ServerState, e: Event, name: string, t: EChatCmdType, recipient: string) {
    e.TextFrame? && IsParsedCommand(s, e.ws, e.msg, TryParseMessage(e.msg), name, t, recipient)
  }

  ghost predicate IsParsedCommand(s: ServerState, ws: SocketId, msg: string, parsed: Parsed, name: string,
                                  t: EChatCmdType, recipient: string) {
    && ws in s.sockets && s.sockets[ws].connected && s.sockets[ws].name == name
    && !KindOf(msg).LoginText? && parsed.Message? && parsed.msg.Type == t && parsed.msg.Recipient == recipient
  }

  /** `leader` leads a group in which there is nothing to stop `member` from being invited. */
  ghost predicate MayInvite(s: ServerState, leader: string, member: string) {
    CheckInvite(s.groups, member, leader).errorCode == SUCCESS && InfoByName(s.groups, leader).isLeader
  }

  /** Event `e` was an accepted invitation of `member` by `leader`, who led a group once it
      was processed. */
  ghost predicate AcceptedInvite(s: ServerState, e: Event, s': ServerState, leader: string, member: string) {
    IsCommand(s, e, leader, EChatCmdType.GroupInvite, member) && MayInvite(s', leader, member)
  }

  lemma InviteAdds(s: ServerState, ws: SocketId, invited: string, text: string, newId: string, now: int, invite: GroupInviteData)
    requires ws in s.sockets
    requires invite in InviteStep(s, ws, invited, text, newId, now).invites && invite !in s.invites
    ensures invite == GroupInviteData(s.sockets[ws].name, invited, now)
    ensures MayInvite(InviteStep(s, ws, invited, text, newId, now), invite.leaderName, invited)
  {
  }

  lemma JoinAddsNone(s: ServerState, ws: SocketId, inviter: string, now: int, invite: GroupInviteData)
    requires ws in s.sockets && invite in JoinStep(s, ws, inviter, now).invites
    ensures invite in s.invites
  {
    var s1 := s.(invites := PruneInvites(s.invites, now));
    assert invite in LeaveSolo(s1, ws).invites ==> invite in s1.invites;
  }

  lemma DisbandAddsNone(s: ServerState, ws: SocketId, invite: GroupInviteData)
    requires ws in s.sockets && invite in DisbandStep(s, ws).invites
    ensures invite in s.invites
  {
  }

  lemma CommandAdds(s: ServerState, ws: SocketId, m: FDaraChatMsg, newId: string, now: int, invite: GroupInviteData)
    requires ws in s.sockets
    requires invite in CommandStep(s, ws, m, newId, now).invites && invite !in s.invites
    ensures m.Type == EChatCmdType.GroupInvite
    ensures CommandStep(s, ws, m, newId, now) == InviteStep(s, ws, m.Recipient, m.Message, newId, now)
  {
    match m.Type
    case GroupInvite =>
    case GroupJoin => JoinAddsNone(s, ws, m.Recipient, now, invite);
    case GroupDisband => DisbandAddsNone(s, ws, invite);
    case _ =>
  }

  /** Texts that are no commands change no invitation. */
  lemma CommandReached(s: ServerState, ws: SocketId, msg: string, parsed: Parsed, login: Login, newId: string, now: int)
    requires SessionsLive(s) && ws in s.sockets && !KindOf(msg).LoginText?
    ensures DispatchStep(s, ws, msg, parsed, login, newId, now).invites != s.invites ==>
      && parsed.Message?
      && DispatchStep(s, ws, msg, parsed, login, newId, now) == CommandStep(s, ws, parsed.msg, newId, now)
      && IsParsedCommand(s, ws, msg, parsed, s.sockets[ws].name, parsed.msg.Type, parsed.msg.Recipient)
  {
  }

  lemma DispatchAdds(s: ServerState, ws: SocketId, msg: string, parsed: Parsed, login: Login, newId: string, now: int,
                     invite: GroupInviteData)
    requires SessionsLive(s) && ws in s.sockets
    requires invite in DispatchStep(s, ws, msg, parsed, login, newId, now).invites && invite !in s.invites
    ensures IsParsedCommand(s, ws, msg, parsed, invite.leaderName, EChatCmdType.GroupInvite, invite.memberName)
    ensures MayInvite(DispatchStep(s, ws, msg, parsed, login, newId, now), invite.leaderName, invite.memberName)
    ensures invite.storeTime == now
  {
    if KindOf(msg).LoginText? {
      ConnectMovesNobody(s, ws, login, now);
    } else {
      CommandReached(s, ws, msg, parsed, login, newId, now);
      CommandAdds(s, ws, parsed.msg, newId, now, invite);
      InviteAdds(s, ws, parsed.msg.Recipient, parsed.msg.Message, newId, now, invite);
    }
  }

  /** Only an accepted invitation adds an invitation, stamped with the time of its step. */
  lemma InvitesComeFromInvites(s: ServerState, e: Event, now: int, invite: GroupInviteData)
    requires Inv(s) && Legal(s, e)
    requires invite in Step(s, e, now).invites && invite !in s.invites
    ensures AcceptedInvite(s, e, Step(s, e, now), invite.leaderName, invite.memberName)
    ensures invite.storeTime == now
  {
    if e.TextFrame? {
      DispatchAdds(s, e.ws, e.msg, TryParseMessage(e.msg), e.login, e.newId, now, invite);
    } else if e.Closed? {
      CloseMovesNobody(s, e.ws, now);
    }
  }

  /** Same members in the same groups, same invitations. */
  ghost predicate SameMembership(s: ServerState, s': ServerState) {
    s'.invites == s.invites && NobodyMoves(s, s')
  }

  lemma EstablishMovesNobody(s: ServerState, ws: SocketId, now: int)
    requires ws in s.sockets
    ensures SameMembership(s, EstablishSession(s, ws, now))
  {
    ShapeQueries(SetOnline(s.groups, s.sockets[ws].name, true, now), s.groups);
  }

  lemma ConnectMovesNobody(s: ServerState, ws: SocketId, login: Login, now: int)
    requires SessionsLive(s) && ws in s.sockets
    ensures SameMembership(s, ConnectStep(s, ws, login, now))
  {
    var d := s.sockets[ws];
    if d.connected || login.Refused? {
      CloseMovesNobody(s, ws, now);
    } else {
      var s1 := WithSocket(s, ws, d.(name := login.name, zone := login.zone, connected := true));
      if login.name in s.sessions && s.sessions[login.name] != ws {
        var prev := s.sessions[login.name];
        CloseMovesNobody(s1, prev, now);
        EstablishMovesNobody(CloseStep(s1, prev, now), ws, now);
      } else {
        EstablishMovesNobody(s1, ws, now);
      }
    }
  }

  lemma CloseMovesNobody(s: ServerState, ws: SocketId, now: int)
    requires ws in s.sockets
    ensures SameMembership(s, CloseStep(s, ws, now))
  {
    ShapeQueries(SetOnline(s.groups, s.sockets[ws].name, false, now), s.groups);
  }

  /** A step that puts a name into a group that already existed. */
  ghost predicate Enters(s: ServerState, s': ServerState, name: string, id: string) {
    id in GroupIds(s.groups) && GroupOf(s.groups, name) != id && GroupOf(s'.groups, name) == id
  }

  ghost predicate IsJoin(s: ServerState, e: Event, name: string, inviter: string) {
    IsCommand(s, e, name, EChatCmdType.GroupJoin, inviter)
  }

  /** Nothing but the character's own join command puts it into an existing group. */
  lemma OnlyJoinEnters(s: ServerState, e: Event, now: int, name: string, id: string) returns (inviter: string)
    requires Inv(s) && Legal(s, e) && Enters(s, Step(s, e, now), name, id)
    ensures IsJoin(s, e, name, inviter) && Step(s, e, now) == JoinStep(s, e.ws, inviter, now)
  {
    assert id != "";
    if e.TextFrame? {
      inviter := DispatchEnters(s, e.ws, e.msg, TryParseMessage(e.msg), e.login, e.newId, now, name, id);
    } else {
      NoFrameMoves(s, e, now);
      assert false;
    }
  }

  lemma NoFrameMoves(s: ServerState, e: Event, now: int)
    requires Inv(s) && Legal(s, e) && !e.TextFrame?
    ensures NobodyMoves(s, Step(s, e, now))
  {
    match e
    case Opened(ws) =>
    case Closed(ws) => CloseMovesNobody(s, ws, now);
    case BinaryFrame(ws, data, valid, health) =>
      ShapeQueries(MarkAlive(s.groups, s.sockets[ws].name, s.sockets[ws].zone, health, now), s.groups);
  }

  lemma DispatchEnters(s: ServerState, ws: SocketId, msg: string, parsed: Parsed, login: Login, newId: string, now: int,
                       name: string, id: string) returns (inviter: string)
    requires Inv(s) && Legal(s, TextFrame(ws, msg, login, newId)) && id != ""
    requires Enters(s, DispatchStep(s, ws, msg, parsed, login, newId, now), name, id)
    ensures IsParsedCommand(s, ws, msg, parsed, name, EChatCmdType.GroupJoin, inviter)
    ensures DispatchStep(s, ws, msg, parsed, login, newId, now) == JoinStep(s, ws, inviter, now)
  {
    var m := OnlyCommandsMove(s, ws, msg, parsed, login, newId, now);
    CommandEnters(s, ws, m, newId, now, name, id);
    inviter := m.Recipient;
  }

  lemma CommandEnters(s: ServerState, ws: SocketId, m: FDaraChatMsg, newId: string, now: int, name: string, id: string)
    requires Inv(s) && ws in s.sockets && s.sockets[ws].connected && FreshId(s.groups, newId)
    requires Enters(s, CommandStep(s, ws, m, newId, now), name, id)
    ensures m.Type == EChatCmdType.GroupJoin && s.sockets[ws].name == name
    ensures CommandStep(s, ws, m, newId, now) == JoinStep(s, ws, m.Recipient, now)
  {
    if m.Type != EChatCmdType.GroupJoin {
      OthersDoNotEnter(s, ws, m, newId, now, name, id);
    }
    JoinAllOrNothing(s, ws, m.Recipient, now);
  }

  lemma OnlyCommandsMove(s: ServerState, ws: SocketId, msg: string, parsed: Parsed, login: Login, newId: string, now: int)
      returns (m: FDaraChatMsg)
    requires SessionsLive(s) && ws in s.sockets
    requires !NobodyMoves(s, DispatchStep(s, ws, msg, parsed, login, newId, now))
    ensures parsed == Message(m) && s.sockets[ws].connected && !KindOf(msg).LoginText?
    ensures DispatchStep(s, ws, msg, parsed, login, newId, now) == CommandStep(s, ws, m, newId, now)
  {
    if KindOf(msg).LoginText? {
      ConnectMovesNobody(s, ws, login, now);
    }
    m := parsed.msg;
  }

  lemma MoverEnters(s: ServerState, s': ServerState, mover: string, name: string, target: string, id: string)
    requires Moves(s, s', mover, target)
    requires target == GroupOf(s.groups, mover) || target !in GroupIds(s.groups)
    ensures !Enters(s, s', name, id)
  {
  }

  lemma InviteDoesNotEnter(s: ServerState, ws: SocketId, invited: string, text: string, newId: string, now: int,
                           name: string, id: string)
    requires Inv(s) && ws in s.sockets && s.sockets[ws].connected && FreshId(s.groups, newId)
    ensures !Enters(s, InviteStep(s, ws, invited, text, newId, now), name, id)
  {
    var s1 := EnsureGroup(s, ws, newId, now);
    EnsureMoves(s, ws, newId, now);
    CachedId(s, ws);
    InviteGroup(s, ws, newId, now);
    MoverEnters(s, s1, s.sockets[ws].name, name, s1.sockets[ws].groupId, id);
    OfferCore(s1, ws, s.sockets[ws].name, invited, text, now);
  }

  lemma OthersDoNotEnter(s: ServerState, ws: SocketId, m: FDaraChatMsg, newId: string, now: int, name: string, id: string)
    requires Inv(s) && ws in s.sockets && s.sockets[ws].connected && FreshId(s.groups, newId)
    requires m.Type != EChatCmdType.GroupJoin
    ensures !Enters(s, CommandStep(s, ws, m, newId, now), name, id)
  {
    match m.Type
    case GroupInvite => InviteDoesNotEnter(s, ws, m.Recipient, m.Message, newId, now, name, id);
    case GroupDisband =>
      DisbandKeeps(s, ws);
      MoverEnters(s, DisbandStep(s, ws), s.sockets[ws].name, name, "", id);
    case Alive => AliveMovesNobody(s, ws, m.Message, now);
    case _ =>
  }

  lemma AliveMovesNobody(s: ServerState, ws: SocketId, health: string, now: int)
    requires ws in s.sockets
    ensures NobodyMoves(s, AliveStep(s, ws, health, now))
  {
    ShapeQueries(MarkAlive(s.groups, s.sockets[ws].name, s.sockets[ws].zone, health, now), s.groups);
  }

  lemma InviteGroup(s: ServerState, ws: SocketId, newId: string, now: int)
    requires Inv(s) && ws in s.sockets && s.sockets[ws].connected && FreshId(s.groups, newId)
    ensures var id := EnsureGroup(s, ws, newId, now).sockets[ws].groupId;
            id == s.sockets[ws].groupId || id !in GroupIds(s.groups)
  {
    CachedId(s, ws);
    if s.sockets[ws].groupId == "" {
      StartFacts(s.groups, s.sockets[ws].name, newId, now, s.sessions.Keys);
    }
  }

  /** Each stored invitation was accepted at an earlier step of the run. */
  lemma {:induction false} InvitesBacked(run: Run, k: nat, invite: GroupInviteData) returns (j: nat)
    requires run.Valid() && k <= |run.events| && invite in run.states[k].invites
    ensures j < k && run.times[j] == invite.storeTime
    ensures AcceptedInvite(run.states[j], run.events[j], run.states[j + 1], invite.leaderName, invite.memberName)
  {
    if k == 0 {
      assert false;
    } else if invite in run.states[k - 1].invites {
      j := InvitesBacked(run, k - 1, invite);
    } else {
      RunKeepsInvariant(run, k - 1);
      assert run.StepAt(k - 1);
      InvitesComeFromInvites(run.states[k - 1], run.events[k - 1], run.times[k - 1], invite);
      j := k - 1;
    }
  }

  lemma AdmittingInvite(invites: Invites, now: int, inviter: string, name: string) returns (invite: GroupInviteData)
    requires HasInvited(PruneInvites(invites, now), inviter, name)
    ensures invite in invites && now - invite.storeTime <= MAX_INVITE_AGE
    ensures SameIgnoringCase(invite.leaderName, inviter) && SameIgnoringCase(invite.memberName, name)
  {
    var pruned := PruneInvites(invites, now);
    var i :| 0 <= i < |pruned| && SameIgnoringCase(pruned[i].leaderName, inviter)
                               && SameIgnoringCase(pruned[i].memberName, name);
    invite := pruned[i];
    assert invite in pruned;
  }

  /** Whenever step k puts a name into an existing group, the name sent the join itself, naming
      a member of that group; and at an earlier step j, at most 180 seconds before, someone
      leading a group invited it. Both names agree with the invitation up to ASCII case only. */
  lemma JoinProvenance(run: Run, k: nat, name: string, id: string) returns (j: nat, inviter: string, leader: string, member: string)
    requires run.Valid() && k < |run.events| && Enters(run.states[k], run.states[k + 1], name, id)
    ensures IsJoin(run.states[k], run.events[k], name, inviter) && GroupOf(run.states[k].groups, inviter) == id
    ensures j < k && run.times[k] - run.times[j] <= 180
    ensures AcceptedInvite(run.states[j], run.events[j], run.states[j + 1], leader, member)
    ensures SameIgnoringCase(leader, inviter) && SameIgnoringCase(member, name)
  {
    RunKeepsInvariant(run, k);
    assert run.StepAt(k);
    var s, e, now := run.states[k], run.events[k], run.times[k];
    inviter := OnlyJoinEnters(s, e, now, name, id);
    JoinAllOrNothing(s, e.ws, inviter, now);
    var invite := AdmittingInvite(s.invites, now, inviter, name);
    leader, member := invite.leaderName, invite.memberName;
    j := InvitesBacked(run, k, invite);
  }
}
