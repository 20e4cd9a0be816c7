/**
 What single commands make the server publish: who hears it, and in whose name.
 */
module ServerCommands {
  import opened Text
  import opened Groups
  import opened ServerGroups
  import opened ServerSteps
  import opened ServerInvariant
  import opened ServerKeeps
  import opened ServerRuns
  import opened Envelope = ChatEnvelope
  import Logins
  import Wrappers

  // ------------------------------------------------------------- what is published

  /** A chat message in the name of `name`, other than a group record. */
  ghost predicate Signed(payload: string, name: string) {
    exists m: FDaraChatMsg :: Serialize(m) == payload && m.Sender == name && Sendable(m)
  }

  predicate Sendable(m: FDaraChatMsg) {
    m.Type != None && !m.Type.GroupInfo? && ':' !in m.Recipient
  }

  /** A publication is the server's own, true account of the group behind the topic after the
      step, or a message with the sender's authenticated name in the sender field. */
  ghost predicate Authentic(p: Publication, after: Members, name: string) {
    p.payload == GroupUpdateText(after, p.topic) || Signed(p.payload, name)
  }

  /** Whoever receives `payload` reads `name` as its sender. */
  predicate ReadAs(payload: string, name: string) {
    TryParseMessage(payload).Message? && TryParseMessage(payload).msg.Sender == name
  }

  /** Receivers read the authenticated name as the sender exactly when it has no colon. */
  lemma SignedReads(payload: string, name: string)
    requires Signed(payload, name)
    ensures ReadAs(payload, name) <==> ':' !in name
  {
    var m: FDaraChatMsg :| Serialize(m) == payload && m.Sender == name && Sendable(m);
    ParseAfterPrint(m);
    if ReadAs(payload, name) {
      ParsedFieldsColonFree(payload);
    }
  }

  /** A name with a colon is read as the part before it, which may be somebody else's name. */
  lemma ReadAsAnother(payload: string, a: string, b: string)
    requires Signed(payload, a + ":" + b) && ':' !in a && ':' !in b
    ensures ReadAs(payload, a)
  {
    var m: FDaraChatMsg :| Serialize(m) == payload && m.Sender == a + ":" + b && Sendable(m);
    SenderCutShort(m, a, b);
  }

  /** Such a login is accepted: whoever holds a good token for "Alice:x" speaks as Alice. */
  lemma ImpersonatingLogin(pass: string, t: Logins.Token, secret: string, now: int, decode: string -> Wrappers.Option<Logins.Token>)
    requires secret != "" && Logins.TokenGood(t, now) && t.characterName == Logins.Present("Alice:x")
    requires pass != "" && ';' !in pass && decode(pass) == Wrappers.Some(t)
    ensures Logins.AsLogin(Logins.Verdict(Logins.LoginText(Logins.LoginFor("Alice:x", pass)), secret, now, decode))
         == Login.Accepted("Alice:x", "")
    ensures forall payload :: Signed(payload, "Alice:x") ==> ReadAs(payload, "Alice")
  {
    Logins.NamesThatLogIn("Alice:x", pass, t, secret, now, decode);
    forall payload | Signed(payload, "Alice:x") ensures ReadAs(payload, "Alice") {
      assert "Alice:x" == "Alice" + ":" + "x";
      ReadAsAnother(payload, "Alice", "x");
    }
  }

  lemma LegacyCut(msg: string, t: string, rest: string)
    requires ':' !in t && msg == "publish:" + (t + ":" + rest)
    ensures FindFrom(msg, 8) == 8 + |t| && msg[8..8 + |t|] == t && msg[8..] == t + ":" + rest
  {
    assert msg[8..] == t + ":" + rest && msg[8 + |t|] == ':';
    assert forall i :: 0 <= i < |t| ==> msg[8 + i] == t[i];
  }

  lemma LegacyDispatched(s: ServerState, ws: SocketId, msg: string, login: Login, newId: string, now: int)
    requires SessionsLive(s) && ws in s.sockets && s.sockets[ws].connected && "publish:" <= msg
    ensures TextStep(s, ws, msg, login, newId, now) == LegacyPublishStep(s, msg)
  {
    assert msg[0] == 'p';
  }

  lemma LegacyPublished(s: ServerState, msg: string, t: string, rest: string)
    requires ':' !in t && msg == "publish:" + (t + ":" + rest)
    ensures LegacyPublishStep(s, msg) == Publish(s, t, t + ":" + rest)
  {
    LegacyCut(msg, t, rest);
  }

  lemma SerializeIs(m: FDaraChatMsg)
    ensures Serialize(m) == ChatCmdTypeToString(m.Type) + ":" + (m.Sender + ":" + m.Recipient + ":" + m.Message)
  {
  }

  /** The legacy path passes on what it is given: any authenticated client can publish any message,
      whose sender field receivers read as it was written, on the channel called like its type. */
  lemma LegacySpeaksAs(s: ServerState, ws: SocketId, m: FDaraChatMsg, login: Login, newId: string, now: int)
    requires SessionsLive(s) && ws in s.sockets && s.sockets[ws].connected
    requires m.Type != None && ':' !in m.Sender && ':' !in m.Recipient
    ensures TextStep(s, ws, "publish:" + Serialize(m), login, newId, now)
         == Publish(s, ChatCmdTypeToString(m.Type), Serialize(m))
    ensures TryParseMessage(Serialize(m)) == Message(m)
  {
    ParseAfterPrint(m);
    NoColonInType(m.Type);
    SerializeIs(m);
    LegacyPublished(s, "publish:" + Serialize(m), ChatCmdTypeToString(m.Type), m.Sender + ":" + m.Recipient + ":" + m.Message);
    LegacyDispatched(s, ws, "publish:" + Serialize(m), login, newId, now);
  }

  /** Everything published from `s` to `s'` is on one topic and authentic. */
  ghost predicate Publishes(s: ServerState, s': ServerState, topic: string, name: string) {
    && s.sent <= s'.sent
    && forall i :: |s.sent| <= i < |s'.sent| ==> s'.sent[i].topic == topic && Authentic(s'.sent[i], s'.groups, name)
  }

  /** The topic on which a command of a socket is heard. */
  function TopicOf(s: ServerState, d: DaraSocket, m: FDaraChatMsg): string {
    match m.Type
    case Channel => m.Recipient
    case Zone => ZONE_PREFIX + d.zone
    case Tell => TELL_PREFIX + ToLower(m.Recipient)
    case GroupInvite => TELL_PREFIX + ToLower(m.Recipient)
    case GroupJoin => GroupOf(s.groups, m.Recipient)
    case _ => d.groupId
  }

  lemma OneSigned(s: ServerState, topic: string, m: FDaraChatMsg)
    requires Sendable(m)
    ensures Publishes(s, Publish(s, topic, Serialize(m)), topic, m.Sender)
  {
  }

  lemma UpdateIsTrue(s: ServerState, id: string, name: string)
    requires GROUP_PREFIX <= id
    ensures Publishes(s, SendGroupUpdate(s, id), id, name)
  {
  }

  lemma PublishesSame(s: ServerState, s1: ServerState, s2: ServerState, topic: string, name: string)
    requires s1.sent == s.sent && Publishes(s1, s2, topic, name)
    ensures Publishes(s, s2, topic, name)
  {
  }

  lemma StoredIdPrefixed(s: ServerState, name: string)
    requires Inv(s) && GroupOf(s.groups, name) != ""
    ensures GROUP_PREFIX <= GroupOf(s.groups, name)
  {
  }

  lemma InvitePublishes(s: ServerState, ws: SocketId, invited: string, text: string, newId: string, now: int)
    requires ws in s.sockets && ':' !in invited
    ensures Publishes(s, InviteStep(s, ws, invited, text, newId, now), TELL_PREFIX + ToLower(invited), s.sockets[ws].name)
  {
    var s1 := EnsureGroup(s, ws, newId, now);
    assert s1.sent == s.sent;
    OneSigned(s1.(invites := PruneInvites(s1.invites, now) + [GroupInviteData(s.sockets[ws].name, invited, now)]),
              TELL_PREFIX + ToLower(invited), FDaraChatMsg(EChatCmdType.GroupInvite, s.sockets[ws].name, invited, text));
  }

  lemma EnterPublishes(s: ServerState, ws: SocketId, inviter: string, now: int, name: string)
    requires ws in s.sockets
    requires GroupOf(s.groups, inviter) == "" || GROUP_PREFIX <= GroupOf(s.groups, inviter)
    ensures Publishes(s, EnterGroup(s, ws, inviter, now), GroupOf(s.groups, inviter), name)
  {
    var d := s.sockets[ws];
    var joined := JoinGroup(s.groups, d.name, inviter, now);
    if d.groupId == "" && joined.info.errorCode == 0 && joined.info.groupId != "" {
      UpdateIsTrue(WithSocket(s, ws, SubscribeGroup(d.(groupId := joined.info.groupId)))
          .(groups := joined.members, invites := DropInvite(s.invites, inviter, d.name)), joined.info.groupId, name);
    }
  }

  lemma JoinPublishes(s: ServerState, ws: SocketId, inviter: string, now: int)
    requires Inv(s) && ws in s.sockets && s.sockets[ws].connected
    ensures Publishes(s, JoinStep(s, ws, inviter, now), GroupOf(s.groups, inviter), s.sockets[ws].name)
  {
    var name := s.sockets[ws].name;
    var s1 := s.(invites := PruneInvites(s.invites, now));
    SameCoreInv(s, s1);
    if JoinAllowed(s1, name, inviter) {
      var s2 := LeaveSolo(s1, ws);
      LeaveSoloKeeps(s1, ws);
      InviterStays(s1, ws, inviter);
      StoredIdPrefixed(s, inviter);
      EnterPublishes(s2, ws, inviter, now, name);
      PublishesSame(s, s2, JoinStep(s, ws, inviter, now), GroupOf(s.groups, inviter), name);
    }
  }

  lemma InviterStays(s: ServerState, ws: SocketId, inviter: string)
    requires Inv(s) && ws in s.sockets && s.sockets[ws].connected && JoinAllowed(s, s.sockets[ws].name, inviter)
    ensures GroupOf(LeaveSolo(s, ws).groups, inviter) == GroupOf(s.groups, inviter)
  {
    LeaveSoloKeeps(s, ws);
    LeaveFacts(s.groups, s.sockets[ws].name, s.sessions.Keys);
  }

  lemma DisbandPublishes(s: ServerState, ws: SocketId)
    requires Inv(s) && ws in s.sockets && s.sockets[ws].connected
    ensures Publishes(s, DisbandStep(s, ws), s.sockets[ws].groupId, s.sockets[ws].name)
  {
    var d := s.sockets[ws];
    CachedId(s, ws);
    if d.groupId != "" {
      StoredIdPrefixed(s, d.name);
      var s1 := WithSocket(s, ws, UnsubscribeGroup(d).(groupId := ""))
        .(groups := LeaveGroup(s.groups, d.name).members,
          invites := InvitesAfterLeaving(s.groups, s.invites, d.name));
      var notice := FDaraChatMsg(EChatCmdType.GroupDisbandInfo, d.name, "", "left the group");
      OneSigned(s1, d.groupId, notice);
      var s2 := Publish(s1, d.groupId, Serialize(notice));
      UpdateIsTrue(s2, d.groupId, d.name);
      PublishesBoth(s1, s2, SendGroupUpdate(s2, d.groupId), d.groupId, d.name);
      PublishesSame(s, s1, DisbandStep(s, ws), d.groupId, d.name);
    }
  }

  lemma PublishesBoth(s: ServerState, s1: ServerState, s2: ServerState, topic: string, name: string)
    requires Publishes(s, s1, topic, name) && Publishes(s1, s2, topic, name) && s1.groups == s2.groups
    ensures Publishes(s, s2, topic, name)
  {
    forall i | |s.sent| <= i < |s2.sent|
      ensures s2.sent[i].topic == topic && Authentic(s2.sent[i], s2.groups, name)
    {
      if i < |s1.sent| {
        assert s2.sent[i] == s1.sent[i];
      }
    }
  }

  /** Whatever a command makes the server publish goes to the command's own topic, with the sender's
      authenticated name in the sender field or as the server's true account of a group; the
      sender field of the incoming message plays no part. */
  lemma CommandPublishes(s: ServerState, ws: SocketId, m: FDaraChatMsg, newId: string, now: int)
    requires Inv(s) && ws in s.sockets && s.sockets[ws].connected && ':' !in m.Recipient
    ensures Publishes(s, CommandStep(s, ws, m, newId, now), TopicOf(s, s.sockets[ws], m), s.sockets[ws].name)
  {
    match m.Type
    case GroupInvite => InvitePublishes(s, ws, m.Recipient, m.Message, newId, now);
    case GroupJoin => JoinPublishes(s, ws, m.Recipient, now);
    case GroupDisband => DisbandPublishes(s, ws);
    case Alive => AlivePublishes(s, ws, m.Message, now);
    case _ => TalkPublishes(s, ws, m, newId, now);
  }

  lemma AlivePublishes(s: ServerState, ws: SocketId, health: string, now: int)
    requires ws in s.sockets
    ensures Publishes(s, AliveStep(s, ws, health, now), s.sockets[ws].groupId, s.sockets[ws].name)
  {
    var d := s.sockets[ws];
    OneSigned(s.(groups := MarkAlive(s.groups, d.name, d.zone, health, now)), d.groupId,
              FDaraChatMsg(EChatCmdType.AliveInfo, d.name, "", d.zone + ";" + health));
  }

  lemma TalkPublishes(s: ServerState, ws: SocketId, m: FDaraChatMsg, newId: string, now: int)
    requires ws in s.sockets && !GroupCommand(m.Type) && ':' !in m.Recipient
    ensures Publishes(s, CommandStep(s, ws, m, newId, now), TopicOf(s, s.sockets[ws], m), s.sockets[ws].name)
  {
    if m.Type.Channel? || m.Type.Zone? || m.Type.Group? || m.Type.Tell? {
      OneSigned(s, TopicOf(s, s.sockets[ws], m), m.(Sender := s.sockets[ws].name));
    }
  }

  // ------------------------------------------------------------------ who hears it

  /** Those who may hear a command, told by what they are once it has been processed. */
  ghost predicate MayHear(s: ServerState, d: DaraSocket, m: FDaraChatMsg, s': ServerState, ws: SocketId)
    requires ws in s'.sockets
  {
    var hearer := s'.sockets[ws];
    match m.Type
    case Channel => m.Recipient != ""
    case Zone => hearer.zone == d.zone
    case Tell => ToLower(hearer.name) == ToLower(m.Recipient)
    case GroupInvite => ToLower(hearer.name) == ToLower(m.Recipient)
    case GroupJoin => GroupOf(s'.groups, hearer.name) == GroupOf(s.groups, m.Recipient) != ""
    case _ => d.groupId != "" && GroupOf(s'.groups, hearer.name) == d.groupId
  }

  lemma TopicTells(s: ServerState, d: DaraSocket, m: FDaraChatMsg, s': ServerState, ws: SocketId)
    requires MeantFor(s', TopicOf(s, d, m), ws)
    requires d.groupId == "" || GROUP_PREFIX <= d.groupId
    requires GroupOf(s.groups, m.Recipient) == "" || GROUP_PREFIX <= GroupOf(s.groups, m.Recipient)
    ensures MayHear(s, d, m, s', ws)
  {
    var hearer := s'.sockets[ws];
    match m.Type
    case Zone => Cancel(ZONE_PREFIX, d.zone, hearer.zone);
    case Tell => Cancel(TELL_PREFIX, ToLower(m.Recipient), ToLower(hearer.name));
    case GroupInvite => Cancel(TELL_PREFIX, ToLower(m.Recipient), ToLower(hearer.name));
    case _ =>
  }

  lemma Cancel(p: string, x: string, y: string)
    ensures p <= p + x
    ensures p + x == p + y ==> x == y
  {
    assert (p + x)[|p|..] == x && (p + y)[|p|..] == y;
  }

  /** The texts the dispatcher handles before it looks for a chat command. */
  predicate Reserved(msg: string) {
    "connect:" <= msg || "schedule:" <= msg || "subscribe:" <= msg || "unsubscribe:" <= msg || "publish:" <= msg
  }

  lemma ReservedSmall(msg: string)
    requires Reserved(msg)
    ensures msg != "" && 'a' <= msg[0] <= 'z'
  {
  }

  /** A text that parses as a command is none of those. */
  lemma CommandNotReserved(msg: string)
    requires TryParseMessage(msg).Message?
    ensures !Reserved(msg)
  {
    AcceptedCapital(msg);
    if Reserved(msg) {
      ReservedSmall(msg);
    }
  }

  lemma DispatchedAsCommand(s: ServerState, ws: SocketId, msg: string, m: FDaraChatMsg, login: Login, newId: string, now: int)
    requires SessionsLive(s) && ws in s.sockets && s.sockets[ws].connected && !Reserved(msg)
    ensures DispatchStep(s, ws, msg, Message(m), login, newId, now) == CommandStep(s, ws, m, newId, now)
  {
  }

  /** Step `k` processes chat command `m` of an authenticated socket. */
  ghost predicate CommandAt(run: Run, k: nat, m: FDaraChatMsg) {
    && run.Valid() && k < |run.events| && run.events[k].TextFrame?
    && TryParseMessage(run.events[k].msg) == Message(m)
    && run.events[k].ws in run.states[k].sockets && run.states[k].sockets[run.events[k].ws].connected
  }

  lemma CommandTaken(run: Run, k: nat, m: FDaraChatMsg)
    requires CommandAt(run, k, m)
    ensures Inv(run.states[k]) && FreshId(run.states[k].groups, run.events[k].newId)
    ensures run.states[k + 1] == CommandStep(run.states[k], run.events[k].ws, m, run.events[k].newId, run.times[k])
  {
    RunKeepsInvariant(run, k);
    assert run.StepAt(k);
    var e := run.events[k];
    CommandNotReserved(e.msg);
    DispatchedAsCommand(run.states[k], e.ws, e.msg, m, e.login, e.newId, run.times[k]);
  }

  lemma CommandPublication(run: Run, k: nat, m: FDaraChatMsg, i: nat)
    requires CommandAt(run, k, m) && |run.states[k].sent| <= i < |run.states[k + 1].sent|
    ensures var d := run.states[k].sockets[run.events[k].ws]; var s' := run.states[k + 1];
      s'.sent[i].topic == TopicOf(run.states[k], d, m) && Authentic(s'.sent[i], s'.groups, d.name)
  {
    CommandTaken(run, k, m);
    ParsedFieldsColonFree(run.events[k].msg);
    CommandPublishes(run.states[k], run.events[k].ws, m, run.events[k].newId, run.times[k]);
  }

  /** On every run: what is published while a chat command is processed is a true group record,
      or receivers read the authenticated name as its sender exactly when that name has no colon. */
  lemma CommandAuthentic(run: Run, k: nat, m: FDaraChatMsg, i: nat)
    requires CommandAt(run, k, m) && |run.states[k].sent| <= i < |run.states[k + 1].sent|
    ensures var name, s' := run.states[k].sockets[run.events[k].ws].name, run.states[k + 1];
      || s'.sent[i].payload == GroupUpdateText(s'.groups, s'.sent[i].topic)
      || (ReadAs(s'.sent[i].payload, name) <==> ':' !in name)
  {
    var p, name := run.states[k + 1].sent[i], run.states[k].sockets[run.events[k].ws].name;
    CommandPublication(run, k, m, i);
    if Signed(p.payload, name) {
      SignedReads(p.payload, name);
    }
  }

  lemma IdsPrefixed(run: Run, k: nat, m: FDaraChatMsg)
    requires CommandAt(run, k, m)
    ensures var s := run.states[k]; var d := s.sockets[run.events[k].ws]; var id := GroupOf(s.groups, m.Recipient);
      (d.groupId == "" || GROUP_PREFIX <= d.groupId) && (id == "" || GROUP_PREFIX <= id)
  {
    RunKeepsInvariant(run, k);
    CachedId(run.states[k], run.events[k].ws);
  }

  /** On every run: whoever receives something published while a chat command is processed may
      hear that command. */
  lemma CommandAudience(run: Run, k: nat, m: FDaraChatMsg, i: nat, ws: SocketId)
    requires CommandAt(run, k, m) && |run.states[k].sent| <= i < |run.states[k + 1].sent|
    requires ws in run.states[k + 1].sent[i].receivers
    ensures ws in run.states[k + 1].sockets
    ensures MayHear(run.states[k], run.states[k].sockets[run.events[k].ws], m, run.states[k + 1], ws)
  {
    var s, sender := run.states[k], run.events[k].ws;
    IdsPrefixed(run, k, m);
    CommandPublication(run, k, m, i);
    DeliverySafety(run, k, i, ws);
    TopicTells(s, s.sockets[sender], m, run.states[k + 1], ws);
  }
}
