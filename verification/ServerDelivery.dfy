/**
 What is delivered and to whom: the text of commands arrives as it was sent, and whoever has reason
 to listen does.
 */
module ServerDelivery {
  import opened Seqs
  import opened Text
  import opened Groups
  import opened ServerGroups
  import opened ServerSteps
  import opened ServerInvariant
  import opened ServerKeeps
  import opened ServerRuns
  import opened ServerCommands
  import opened ServerInvitations
  import opened Envelope = ChatEnvelope

  // ------------------------------------------------------------------------ publications

  /** Publication `i` reached exactly the sockets that are subscribed to its topic. */
  ghost predicate Reaches(s: ServerState, i: nat) {
    i < |s.sent| && forall w :: w in s.sent[i].receivers <==> w in s.sockets && s.sent[i].topic in s.sockets[w].subscribed
  }

  /** From `s` to `s'` message `m` has been published on `topic`, and nothing else: receivers read it as
      it is unless its sender holds a colon. */
  ghost predicate Delivered(s: ServerState, s': ServerState, topic: string, m: FDaraChatMsg) {
    && |s'.sent| == |s.sent| + 1 && s.sent <= s'.sent
    && Last(s'.sent).topic == topic && Last(s'.sent).payload == Serialize(m)
    && (':' !in m.Sender ==> TryParseMessage(Last(s'.sent).payload) == Message(m))
    && Reaches(s', |s.sent|)
  }

  lemma PublishDelivers(s: ServerState, topic: string, m: FDaraChatMsg)
    requires m.Type != None && ':' !in m.Recipient
    ensures Delivered(s, Publish(s, topic, Serialize(m)), topic, m)
  {
    ParseAfterPrint(m);
    assert Last(s.sent + [Publication(topic, Serialize(m), Receivers(s, topic))]).topic == topic;
  }

  /** A chat message that is passed on: to a channel, the sender's zone or group, or another character. */
  predicate PassedOn(d: DaraSocket, m: FDaraChatMsg) {
    m.Type.Channel? || m.Type.Zone? || (m.Type.Group? && d.groupId != "") || (m.Type.Tell? && !("DEBUG" <= m.Message))
  }

  /** Where to. */
  function TalkTopic(d: DaraSocket, m: FDaraChatMsg): string {
    if m.Type.Channel? then m.Recipient
    else if m.Type.Zone? then "zone_" + d.zone
    else if m.Type.Tell? then "tell_" + ToLower(m.Recipient)
    else d.groupId
  }

  lemma TalkDelivers(s: ServerState, ws: SocketId, m: FDaraChatMsg, newId: string, now: int)
    requires ws in s.sockets && ':' !in m.Recipient
    ensures var d, s' := s.sockets[ws], CommandStep(s, ws, m, newId, now);
      && (PassedOn(d, m) ==> Delivered(s, s', TalkTopic(d, m), m.(Sender := d.name)) && s'.sockets == s.sockets)
      && (!GroupCommand(m.Type) && !PassedOn(d, m) ==> s' == s)
  {
    var d := s.sockets[ws];
    if PassedOn(d, m) {
      PublishDelivers(s, TalkTopic(d, m), m.(Sender := d.name));
    }
  }

  /** On every run: a chat message is delivered once, as it was sent but for the sender, which is the
      authenticated one. */
  lemma MessageDelivered(run: Run, k: nat, m: FDaraChatMsg)
    requires CommandAt(run, k, m) && PassedOn(run.states[k].sockets[run.events[k].ws], m)
    ensures var d := run.states[k].sockets[run.events[k].ws];
      && Delivered(run.states[k], run.states[k + 1], TalkTopic(d, m), m.(Sender := d.name))
      && run.states[k + 1].sockets == run.states[k].sockets
  {
    CommandTaken(run, k, m);
    ParsedFieldsColonFree(run.events[k].msg);
    TalkDelivers(run.states[k], run.events[k].ws, m, run.events[k].newId, run.times[k]);
  }

  /** What a client writes to be passed on: the type, anything as the sender, the recipient, the text. */
  predicate Written(msg: string, kind: string, sender: string, recipient: string, text: string) {
    && msg == kind + ":" + sender + ":" + recipient + ":" + text && ':' !in sender && ':' !in recipient
    && (kind == "Channel" || kind == "Zone" || kind == "Group" || kind == "Tell")
  }

  lemma WrittenIsRead(msg: string, kind: string, sender: string, recipient: string, text: string) returns (m: FDaraChatMsg)
    requires Written(msg, kind, sender, recipient, text)
    ensures TryParseMessage(msg) == Message(m) && m == FDaraChatMsg(m.Type, sender, recipient, text)
    ensures ChatCmdTypeToString(m.Type) == kind
    ensures if kind == "Channel" then m.Type.Channel? else if kind == "Zone" then m.Type.Zone?
            else if kind == "Group" then m.Type.Group? else m.Type.Tell?
  {
    var t := if kind == "Channel" then EChatCmdType.Channel else if kind == "Zone" then EChatCmdType.Zone
             else if kind == "Group" then EChatCmdType.Group else EChatCmdType.Tell;
    m := FDaraChatMsg(t, sender, recipient, text);
    ParseAfterPrint(m);
  }

  /** What the server writes: the same text with the authenticated name as the sender, on the topic
      that goes with the type, to exactly the subscribers of that topic. */
  ghost predicate PassedOnAs(s: ServerState, s': ServerState, ws: SocketId, kind: string, recipient: string, text: string) {
    && ws in s.sockets && |s'.sent| == |s.sent| + 1 && s.sent <= s'.sent && Reaches(s', |s.sent|)
    && var d, p := s.sockets[ws], Last(s'.sent);
       && p.payload == kind + ":" + d.name + ":" + recipient + ":" + text
       && p.topic == (if kind == "Channel" then recipient else if kind == "Zone" then "zone_" + d.zone
                      else if kind == "Tell" then "tell_" + ToLower(recipient) else d.groupId)
  }

  lemma DeliveredAsWritten(s: ServerState, s': ServerState, ws: SocketId, m: FDaraChatMsg, kind: string)
    requires ws in s.sockets && Delivered(s, s', TalkTopic(s.sockets[ws], m), m.(Sender := s.sockets[ws].name))
    requires ChatCmdTypeToString(m.Type) == kind
    requires if kind == "Channel" then m.Type.Channel? else if kind == "Zone" then m.Type.Zone?
             else if kind == "Group" then m.Type.Group? else m.Type.Tell?
    ensures PassedOnAs(s, s', ws, kind, m.Recipient, m.Message)
  {
  }

  /** On every run, text in and text out: what an authenticated client writes is passed on word for
      word, whatever it puts in the sender field. */
  lemma WordForWord(run: Run, k: nat, kind: string, sender: string, recipient: string, text: string)
    requires run.Valid() && k < |run.events| && run.events[k].TextFrame?
    requires Written(run.events[k].msg, kind, sender, recipient, text)
    requires var ws, s := run.events[k].ws, run.states[k];
      && ws in s.sockets && s.sockets[ws].connected
      && (kind == "Group" ==> s.sockets[ws].groupId != "") && (kind == "Tell" ==> !("DEBUG" <= text))
    ensures PassedOnAs(run.states[k], run.states[k + 1], run.events[k].ws, kind, recipient, text)
  {
    var m := WrittenIsRead(run.events[k].msg, kind, sender, recipient, text);
    MessageDelivered(run, k, m);
    DeliveredAsWritten(run.states[k], run.states[k + 1], run.events[k].ws, m, kind);
  }

  /** The text asks the server for something: it is a request to subscribe or not to, a legacy publication,
      or parses as a command that is passed on or concerns a group. */
  predicate Asks(d: DaraSocket, msg: string) {
    || "subscribe:" <= msg || "unsubscribe:" <= msg || "publish:" <= msg
    || match TryParseMessage(msg)
       case Message(m) => GroupCommand(m.Type) || PassedOn(d, m)
       case Rejected(_) => false
  }

  lemma UnaskedText(s: ServerState, ws: SocketId, msg: string, login: Login, newId: string, now: int)
    requires SessionsLive(s) && ws in s.sockets && !KindOf(msg).LoginText?
    requires s.sockets[ws].connected ==> !Asks(s.sockets[ws], msg)
    ensures TextStep(s, ws, msg, login, newId, now) == s
  {
    var k, parsed := KindOf(msg), TryParseMessage(msg);
    if s.sockets[ws].connected && k.OtherText? && parsed.Message? {
      ParsedFieldsColonFree(msg);
      TalkDelivers(s, ws, parsed.msg, newId, now);
    }
  }

  /** On every run: a text that is no login has no effect when its socket is not logged in, or when it
      asks for nothing. */
  lemma UnaskedIgnored(run: Run, k: nat)
    requires run.Valid() && k < |run.events| && run.events[k].TextFrame? && !KindOf(run.events[k].msg).LoginText?
    ensures var s, e := run.states[k], run.events[k];
      && e.ws in s.sockets
      && (!s.sockets[e.ws].connected || !Asks(s.sockets[e.ws], e.msg) ==> run.states[k + 1] == s)
  {
    var s, e := run.states[k], run.events[k];
    assert run.StepAt(k);
    if !s.sockets[e.ws].connected || !Asks(s.sockets[e.ws], e.msg) {
      UnaskedText(s, e.ws, e.msg, e.login, e.newId, run.times[k]);
    }
  }

  // ------------------------------------------------------------------------- invitations

  /** Nothing stands in the way of an invitation: the inviter has no group or heads its roster, and the
      guest, somebody else, is free or alone in another group. */
  predicate Inviting(gs: Members, leader: string, member: string) {
    var own, target := GroupOf(gs, member), GroupOf(gs, leader);
    && member != leader
    && (target == "" || (Roster(gs, target) != [] && Roster(gs, target)[0].name == leader))
    && (own == "" || (own != target && |Roster(gs, own)| == 1))
  }

  lemma InvitingSettled(s: ServerState, ws: SocketId, invited: string, newId: string, now: int)
    requires Inv(s) && ws in s.sockets && s.sockets[ws].connected && FreshId(s.groups, newId)
    ensures var gs := EnsureGroup(s, ws, newId, now).groups;
      CheckInvite(gs, invited, s.sockets[ws].name).errorCode == SUCCESS <==> Inviting(s.groups, s.sockets[ws].name, invited)
  {
    var name := s.sockets[ws].name;
    CachedId(s, ws);
    if s.sockets[ws].groupId == "" {
      StartFacts(s.groups, name, newId, now, s.sessions.Keys);
      StartedInviting(s.groups, name, invited, newId, now);
    } else {
      InviteAccepted(s.groups, invited, name);
    }
  }

  lemma StartedInviting(gs: Members, name: string, invited: string, newId: string, now: int)
    requires GroupsOk(gs) && GroupOf(gs, name) == "" && name != "" && FreshId(gs, newId)
    requires GroupsOk(StartGroup(gs, name, newId, now).members)
    requires OnlyMoved(gs, StartGroup(gs, name, newId, now).members, name, newId)
    ensures CheckInvite(StartGroup(gs, name, newId, now).members, invited, name).errorCode == SUCCESS <==>
            Inviting(gs, name, invited)
  {
    var m := NewMember(name, newId, true, now);
    assert StartGroup(gs, name, newId, now).members == gs + [m];
    AppendQueries(gs, m);
    RosterEmpty(gs, newId);
    InviteAccepted(gs + [m], invited, name);
    if GroupOf(gs, invited) != "" {
      assert IsMember(gs, invited) && GroupOf(gs, invited) != newId;
    }
  }

  /** An accepted invitation is stored, outdated ones go, and it is told to the guest, whatever the
      case of its name; one that is not accepted does none of this. */
  ghost predicate InvitationResult(s: ServerState, s': ServerState, leader: string, m: FDaraChatMsg, now: int) {
    if Inviting(s.groups, leader, m.Recipient) then
      && s'.invites != [] && Last(s'.invites) == GroupInviteData(leader, m.Recipient, now)
      && (forall i :: i in Front(s'.invites) <==> i in s.invites && now - i.storeTime <= 180)
      && Delivered(s, s', "tell_" + ToLower(m.Recipient), m.(Sender := leader))
    else s'.invites == s.invites && s'.sent == s.sent
  }

  lemma OfferResult(s: ServerState, s1: ServerState, ws: SocketId, leader: string, m: FDaraChatMsg, now: int)
    requires ws in s1.sockets && s1.sockets[ws].groupId != "" && s1.sent == s.sent && s1.invites == s.invites
    requires m.Type.GroupInvite? && ':' !in m.Recipient
    requires CheckInvite(s1.groups, m.Recipient, leader).errorCode == SUCCESS <==> Inviting(s.groups, leader, m.Recipient)
    ensures InvitationResult(s, OfferInvite(s1, ws, leader, m.Recipient, m.Message, now), leader, m, now)
  {
    if Inviting(s.groups, leader, m.Recipient) {
      var invites := PruneInvites(s1.invites, now) + [GroupInviteData(leader, m.Recipient, now)];
      PublishDelivers(s1.(invites := invites), "tell_" + ToLower(m.Recipient), m.(Sender := leader));
      assert Last(invites) == GroupInviteData(leader, m.Recipient, now) && Front(invites) == PruneInvites(s1.invites, now);
    }
  }

  lemma InviteResult(s: ServerState, ws: SocketId, m: FDaraChatMsg, newId: string, now: int)
    requires Inv(s) && ws in s.sockets && s.sockets[ws].connected && FreshId(s.groups, newId)
    requires m.Type.GroupInvite? && ':' !in m.Recipient
    ensures InvitationResult(s, CommandStep(s, ws, m, newId, now), s.sockets[ws].name, m, now)
  {
    InviteIsStep(s, ws, m, newId, now);
    EnsureMoves(s, ws, newId, now);
    EnsureIsSilent(s, ws, newId, now);
    InvitingSettled(s, ws, m.Recipient, newId, now);
    OfferResult(s, EnsureGroup(s, ws, newId, now), ws, s.sockets[ws].name, m, now);
  }

  lemma EnsureIsSilent(s: ServerState, ws: SocketId, newId: string, now: int)
    requires ws in s.sockets
    ensures EnsureGroup(s, ws, newId, now).sent == s.sent
  {
  }

  /** On every run: what an invitation does. */
  lemma InvitationDelivered(run: Run, k: nat, m: FDaraChatMsg)
    requires CommandAt(run, k, m) && m.Type.GroupInvite?
    ensures InvitationResult(run.states[k], run.states[k + 1], run.states[k].sockets[run.events[k].ws].name, m, run.times[k])
  {
    CommandTaken(run, k, m);
    ParsedFieldsColonFree(run.events[k].msg);
    InviteResult(run.states[k], run.events[k].ws, m, run.events[k].newId, run.times[k]);
  }

  // ------------------------------------------------------------ leaving, and signs of life

  /** A leave is announced on the group's topic by two publications: the notice that the character has
      left, and the record of the group without it. */
  ghost predicate LeaveAnnounced(s: ServerState, s': ServerState, name: string, id: string) {
    && |s'.sent| == |s.sent| + 2 && s.sent <= s'.sent
    && s'.sent[|s.sent|].topic == s'.sent[|s.sent| + 1].topic == id
    && s'.sent[|s.sent|].payload == "GroupDisbandInfo:" + name + "::left the group"
    && s'.sent[|s.sent| + 1].payload == GroupUpdateText(s'.groups, id)
    && Reaches(s', |s.sent|) && Reaches(s', |s.sent| + 1)
  }

  lemma NoticeText(name: string)
    ensures Serialize(FDaraChatMsg(EChatCmdType.GroupDisbandInfo, name, "", "left the group"))
         == "GroupDisbandInfo:" + name + "::left the group"
  {
    var a, b, c := "GroupDisbandInfo", "left the group", ":";
    assert a + ":" == "GroupDisbandInfo:" && ":" + "" + ":" == "::" && "::" + b == "::left the group";
    assert a + ":" + name + ":" + "" + ":" + b == (a + ":") + name + ((":" + "" + ":") + b);
  }

  lemma InvitesLeft(s: ServerState, ws: SocketId)
    requires ws in s.sockets && s.sockets[ws].groupId != "" && GroupOf(s.groups, s.sockets[ws].name) == s.sockets[ws].groupId
    ensures var d, s' := s.sockets[ws], DisbandStep(s, ws);
      forall i :: i in s'.invites <==> i in s.invites && !(i.leaderName == d.name && |Roster(s.groups, d.groupId)| == 1)
  {
  }

  /** Invitations by somebody who was alone in its group go with the group. */
  lemma LeaveIsAnnounced(s: ServerState, ws: SocketId)
    requires Inv(s) && ws in s.sockets && s.sockets[ws].connected && s.sockets[ws].groupId != ""
    ensures var d, s' := s.sockets[ws], DisbandStep(s, ws);
      && LeaveAnnounced(s, s', d.name, d.groupId)
      && (forall i :: i in s'.invites <==> i in s.invites && !(i.leaderName == d.name && |Roster(s.groups, d.groupId)| == 1))
  {
    CachedId(s, ws);
    InvitesLeft(s, ws);
    NoticeText(s.sockets[ws].name);
  }

  /** A sign of life reaches the sender's group with its zone and health, which are stored. */
  lemma AliveDelivered(s: ServerState, ws: SocketId, m: FDaraChatMsg, newId: string, now: int)
    requires ws in s.sockets && m.Type.Alive?
    ensures var d, s' := s.sockets[ws], CommandStep(s, ws, m, newId, now);
      && Delivered(s, s', d.groupId, FDaraChatMsg(EChatCmdType.AliveInfo, d.name, "", d.zone + ";" + m.Message))
      && LifeStored(s.groups, s'.groups, d.name, d.zone, m.Message, now)
  {
    var d := s.sockets[ws];
    var s1 := s.(groups := MarkAlive(s.groups, d.name, d.zone, m.Message, now));
    PublishDelivers(s1, d.groupId, FDaraChatMsg(EChatCmdType.AliveInfo, d.name, "", d.zone + ";" + m.Message));
  }

  /** The first entry of the name shows it online, in that zone, with that health, seen now; the other
      entries are as they were. */
  ghost predicate LifeStored(before: Members, after: Members, name: string, zone: string, health: string, now: int) {
    && |after| == |before|
    && forall i :: 0 <= i < |before| ==>
         if i == IndexOf(before, name)
         then after[i] == GroupMember(name, before[i].isLeader, true, before[i].groupId, zone, health, now)
         else after[i] == before[i]
  }

  /** A valid binary frame of a group member is passed on to the group as it is, and is a sign of
      life; any other has no effect. */
  lemma BinaryDelivered(s: ServerState, ws: SocketId, data: string, valid: bool, health: string, now: int)
    requires ws in s.sockets
    ensures var d, s' := s.sockets[ws], BinaryStep(s, ws, data, valid, health, now);
      if d.connected && d.groupId != "" && valid then
        && |s'.sent| == |s.sent| + 1 && s.sent <= s'.sent
        && s'.sent[|s.sent|].topic == d.groupId && s'.sent[|s.sent|].payload == data && Reaches(s', |s.sent|)
        && LifeStored(s.groups, s'.groups, d.name, d.zone, health, now)
      else s' == s
  {
  }

  // -------------------------------------------------------------------- hearing one's group

  ghost predicate HasFree(d: DaraSocket) {
    exists i :: 0 <= i < |d.topics| && !d.topics[i].used
  }

  lemma NoSlotLeft(d: DaraSocket, id: string)
    requires !HasFree(d) && NoGroupSlot(d) && GROUP_PREFIX <= id
    ensures SlotFor(d.topics, id) == |d.topics|
  {
    assert forall i :: 0 <= i < |d.topics| ==> Holds(d, i);
  }

  lemma HeardTopicHasSlot(ws: SocketId, d: DaraSocket, t: string)
    requires SocketOk(ws, d) && (GROUP_PREFIX <= t || ZONE_PREFIX <= t || TELL_PREFIX <= t)
    ensures t in d.subscribed ==> InUsedSlot(d, t)
  {
    if t in Placeholders(ws) {
      PlaceholderIsNoManagedTopic(ws, t);
    }
  }

  /** A socket without a group topic is subscribed to its new group exactly when it has a free slot. */
  lemma GroupSubscribed(ws: SocketId, d: DaraSocket, id: string)
    requires SocketOk(ws, d) && NoGroupSlot(d) && GROUP_PREFIX <= id
    ensures id in SubscribeGroup(d.(groupId := id)).subscribed <==> HasFree(d)
  {
    if HasFree(d) {
      var j :| 0 <= j < |d.topics| && !d.topics[j].used;
      assert SlotFor(d.topics, id) <= j;
    } else {
      NoSlotLeft(d, id);
      HeardTopicHasSlot(ws, d, id);
    }
  }

  /** Whoever starts a group by inviting hears it exactly when its socket has a free slot. */
  lemma StarterHears(s: ServerState, ws: SocketId, invited: string, text: string, newId: string, now: int)
    requires Inv(s) && ws in s.sockets && s.sockets[ws].connected && FreshId(s.groups, newId)
    requires GroupOf(s.groups, s.sockets[ws].name) == ""
    ensures var s' := InviteStep(s, ws, invited, text, newId, now);
      ws in s'.sockets && (newId in s'.sockets[ws].subscribed <==> HasFree(s.sockets[ws]))
  {
    CachedId(s, ws);
    StartFacts(s.groups, s.sockets[ws].name, newId, now, s.sessions.Keys);
    GroupSubscribed(ws, s.sockets[ws], newId);
    OfferCore(EnsureGroup(s, ws, newId, now), ws, s.sockets[ws].name, invited, text, now);
  }

  /** Whoever joins a group hears it exactly when its socket has a free slot, counting the one of the
      group it gives up. */
  lemma JoinerHears(s: ServerState, ws: SocketId, inviter: string, now: int)
    requires Inv(s) && ws in s.sockets && s.sockets[ws].connected && JoinEffective(s, s.sockets[ws].name, inviter, now)
    ensures var s' := JoinStep(s, ws, inviter, now);
      ws in s'.sockets && (GroupOf(s.groups, inviter) in s'.sockets[ws].subscribed <==>
                           HasFree(s.sockets[ws]) || !NoGroupSlot(s.sockets[ws]))
  {
    var s1 := s.(invites := PruneInvites(s.invites, now));
    var s2 := LeaveSolo(s1, ws);
    SameCoreInv(s, s1);
    LeaveSoloKeeps(s1, ws);
    SoloLeft(s1, ws, inviter);
    SlotLeft(s1, ws);
    EnteredSubscribes(s2, ws, inviter, now);
  }

  lemma SlotLeft(s: ServerState, ws: SocketId)
    requires Inv(s) && ws in s.sockets && s.sockets[ws].connected && InfoByName(s.groups, s.sockets[ws].name).memberCount <= 1
    ensures ws in LeaveSolo(s, ws).sockets
    ensures HasFree(LeaveSolo(s, ws).sockets[ws]) <==> HasFree(s.sockets[ws]) || !NoGroupSlot(s.sockets[ws])
  {
    var d := s.sockets[ws];
    CachedId(s, ws);
    if d.groupId != "" {
      MemberGroupNonempty(s.groups, d.name);
      GroupSlotFreed(d);
    }
  }

  lemma GroupSlotFreed(d: DaraSocket)
    ensures HasFree(UnsubscribeGroup(d).(groupId := "")) <==> HasFree(d) || !NoGroupSlot(d)
  {
    var i, d' := GroupSlot(d.topics), UnsubscribeGroup(d).(groupId := "");
    if i < |d.topics| {
      assert Holds(d, i) && !d'.topics[i].used;
    } else if HasFree(d) {
      var j :| 0 <= j < |d.topics| && !d.topics[j].used;
      assert !d'.topics[j].used;
    }
  }

  lemma EnteredSubscribes(s: ServerState, ws: SocketId, inviter: string, now: int)
    requires Inv(s) && ws in s.sockets && s.sockets[ws].connected && GroupOf(s.groups, s.sockets[ws].name) == ""
    requires GroupOf(s.groups, inviter) != "" && |Roster(s.groups, GroupOf(s.groups, inviter))| < MAX_GROUP_MEMBERS
    ensures var s' := EnterGroup(s, ws, inviter, now);
      ws in s'.sockets && (GroupOf(s.groups, inviter) in s'.sockets[ws].subscribed <==> HasFree(s.sockets[ws]))
  {
    var id := GroupOf(s.groups, inviter);
    CachedId(s, ws);
    JoinFacts(s.groups, s.sockets[ws].name, inviter, now, s.sessions.Keys);
    StoredIdPrefixed(s, inviter);
    GroupSubscribed(ws, s.sockets[ws], id);
    assert EnterGroup(s, ws, inviter, now).sockets[ws] == SubscribeGroup(s.sockets[ws].(groupId := id));
  }
}
