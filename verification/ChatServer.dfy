/**
 The server's handlers as code that changes its state in place: the socket table, the
 session table, the group container and what has been published. Each handler is tied to
 the step of module `ServerSteps` that describes it.
 */
module ChatServers {
  import opened Text
  import opened Groups
  import opened GroupContainers
  import opened Envelope = ChatEnvelope
  import opened GroupInfoCodec
  import opened ServerSteps
  import opened ServerInvariant
  import opened ServerKeeps

  class ChatServer {
    var sockets: map<SocketId, DaraSocket>
    var activeSessions: map<string, SocketId>
    var sent: seq<Publication>
    const groupContainer: GroupContainer

    ghost function State(): ServerState
      reads this, groupContainer
    {
      ServerState(sockets, activeSessions, groupContainer.myGroups, groupContainer.myInvites, sent)
    }

    constructor ()
      ensures State() == INITIAL
      ensures fresh(groupContainer)
    {
      sockets, activeSessions, sent := map[], map[], [];
      groupContainer := new GroupContainer();
    }

    // ------------------------------------------------------------ topic slots

    method StoreTopicSubscription(ws: SocketId, newTopic: string) returns (stored: bool)
      requires ws in sockets
      modifies this`sockets
      ensures var was := old(sockets)[ws]; var i := SlotFor(was.topics, newTopic);
        && stored == (i < |was.topics|)
        && sockets == old(sockets)[ws := was.(topics :=
             if stored && !was.topics[i].used then was.topics[i := TopicSlot(newTopic, true)] else was.topics)]
    {
      var topics := sockets[ws].topics;
      for i := 0 to |topics|
        invariant sockets == old(sockets)
        invariant forall j :: 0 <= j < i ==> topics[j].used && topics[j].topic != newTopic
      {
        if !topics[i].used {
          assert i == SlotFor(topics, newTopic);
          sockets := sockets[ws := sockets[ws].(topics := topics[i := TopicSlot(newTopic, true)])];
          return true;
        }
        if topics[i].topic == newTopic {
          assert i == SlotFor(topics, newTopic);
          return true;
        }
      }
      stored := false;
    }

    method StoreAndSubscribe(ws: SocketId, newTopic: string)
      requires ws in sockets
      modifies this`sockets
      ensures sockets == old(sockets)[ws := SubscribeTo(old(sockets)[ws], newTopic)]
    {
      var stored := StoreTopicSubscription(ws, newTopic);
      if stored {
        sockets := sockets[ws := sockets[ws].(subscribed := sockets[ws].subscribed + {newTopic})];
      }
    }

    method ClearSlot(ws: SocketId, i: nat)
      requires ws in sockets && i < |sockets[ws].topics|
      modifies this`sockets
      ensures sockets == old(sockets)[ws := FreeSlot(old(sockets)[ws], i)]
    {
      var d := sockets[ws];
      sockets := sockets[ws := d.(topics := d.topics[i := TopicSlot("none", false)])];
      sockets := sockets[ws := sockets[ws].(subscribed := d.subscribed - {d.topics[i].topic})];
    }

    method RemoveTopicSubscription(ws: SocketId, oldTopic: string) returns (removed: bool)
      requires ws in sockets
      modifies this`sockets
      ensures removed == (UsedSlot(old(sockets)[ws].topics, oldTopic) < |old(sockets)[ws].topics|)
      ensures sockets == old(sockets)[ws := UnsubscribeFrom(old(sockets)[ws], oldTopic)]
    {
      var topics := sockets[ws].topics;
      for i := 0 to |topics|
        invariant sockets == old(sockets)
        invariant forall j :: 0 <= j < i ==> !(topics[j].used && topics[j].topic == oldTopic)
      {
        if topics[i].used && topics[i].topic == oldTopic {
          assert i == UsedSlot(topics, oldTopic);
          ClearSlot(ws, i);
          return true;
        }
      }
      removed := false;
    }

    method RemoveGroupSubscription(ws: SocketId) returns (removed: bool)
      requires ws in sockets
      modifies this`sockets
      ensures removed == (GroupSlot(old(sockets)[ws].topics) < |old(sockets)[ws].topics|)
      ensures sockets == old(sockets)[ws := UnsubscribeGroup(old(sockets)[ws])]
    {
      var topics := sockets[ws].topics;
      for i := 0 to |topics|
        invariant sockets == old(sockets)
        invariant forall j :: 0 <= j < i ==> !(topics[j].used && GROUP_PREFIX <= topics[j].topic)
      {
        if topics[i].used && GROUP_PREFIX <= topics[i].topic {
          assert i == GroupSlot(topics);
          ClearSlot(ws, i);
          return true;
        }
      }
      removed := false;
    }

    method SetGroupId(ws: SocketId, groupId: string)
      requires ws in sockets
      modifies this`sockets
      ensures sockets == old(sockets)[ws := old(sockets)[ws].(groupId := groupId)]
    {
      sockets := sockets[ws := sockets[ws].(groupId := groupId)];
    }

    method SubscribeGroupTopic(ws: SocketId)
      requires ws in sockets
      modifies this`sockets
      ensures sockets == old(sockets)[ws := SubscribeGroup(old(sockets)[ws])]
    {
      var groupId := sockets[ws].groupId;
      if groupId == "" {
        return;
      }
      if GROUP_PREFIX <= groupId {
        StoreAndSubscribe(ws, groupId);
      } else {
        StoreAndSubscribe(ws, GroupTopic(groupId));
      }
    }

    method SubscribeStandardTopics(ws: SocketId)
      requires ws in sockets
      modifies this`sockets
      ensures sockets == old(sockets)[ws := SubscribeStandard(old(sockets)[ws])]
    {
      var zone, name := sockets[ws].zone, sockets[ws].name;
      StoreAndSubscribe(ws, "World");
      StoreAndSubscribe(ws, ZONE_PREFIX + zone);
      StoreAndSubscribe(ws, TELL_PREFIX + ToLower(name));
      SubscribeGroupTopic(ws);
    }

    /** The two assignments that follow every successful start or join. */
    method EnterTopic(ws: SocketId, groupId: string)
      requires ws in sockets
      modifies this`sockets
      ensures sockets == old(sockets)[ws := SubscribeGroup(old(sockets)[ws].(groupId := groupId))]
    {
      SetGroupId(ws, groupId);
      SubscribeGroupTopic(ws);
    }

    method LeaveTopic(ws: SocketId)
      requires ws in sockets
      modifies this`sockets
      ensures sockets == old(sockets)[ws := UnsubscribeGroup(old(sockets)[ws]).(groupId := "")]
    {
      var _ := RemoveGroupSubscription(ws);
      SetGroupId(ws, "");
    }

    // ------------------------------------------------------------- publishing

    method PublishTo(topic: string, payload: string)
      modifies this`sent
      ensures State() == Publish(old(State()), topic, payload)
    {
      var receivers := set ws | ws in sockets && topic in sockets[ws].subscribed;
      sent := sent + [Publication(topic, payload, receivers)];
    }

    method SendGroupUpdateInfo(groupId: string)
      modifies this`sent
      ensures State() == SendGroupUpdate(old(State()), groupId)
    {
      var info := groupContainer.GetGroupInfoByGroupId(groupId);
      var text := SerializeToSend(info);
      PublishTo(GroupTopic(groupId), Serialize(FDaraChatMsg(EChatCmdType.GroupInfo, "GroupAdmin", "", text)));
    }

    // --------------------------------------------------------------- handlers

    method Open(ws: SocketId)
      requires ws !in sockets
      modifies this`sockets
      ensures State() == OpenStep(old(State()), ws)
    {
      var topics: seq<TopicSlot>, subscribed: set<string> := [], {};
      for i := 0 to SLOTS
        invariant |topics| == i
        invariant forall j :: 0 <= j < i ==> topics[j] == TopicSlot(Placeholder(ws, j), false)
        invariant subscribed == set j | 0 <= j < i :: Placeholder(ws, j)
      {
        topics := topics + [TopicSlot(Placeholder(ws, i), false)];
        subscribed := subscribed + {Placeholder(ws, i)};
      }
      assert topics == FreshSlots(ws);
      sockets := sockets[ws := DaraSocket("", "", "", topics, false, subscribed)];
    }

    /** The close handler of a socket that has just gone. */
    method OnClose(ws: SocketId, data: DaraSocket, now: int)
      modifies this`activeSessions, this`sent, groupContainer`myGroups
      ensures State() == CloseHandler(old(State()), ws, data, now)
    {
      if !data.connected {
        return;
      }
      if data.name !in activeSessions || activeSessions[data.name] != ws {
        return;
      }
      activeSessions := activeSessions - {data.name};
      var changed := groupContainer.SetMemberOnline(data.name, false, now);
      if changed && data.groupId != "" {
        SendGroupUpdateInfo(data.groupId);
      }
    }

    /** `ws->end()`, or the peer going away. */
    method End(ws: SocketId, now: int)
      requires ws in sockets
      modifies this, groupContainer`myGroups
      ensures State() == CloseStep(old(State()), ws, now)
    {
      var data := sockets[ws];
      sockets := sockets - {ws};
      OnClose(ws, data, now);
    }

    method HandleConnect(ws: SocketId, login: Login) returns (ok: bool)
      requires ws in sockets
      modifies this`sockets
      ensures ok == login.Accepted?
      ensures sockets == if ok then old(sockets)[ws := old(sockets)[ws].(name := login.name, zone := login.zone, connected := true)]
                         else old(sockets)
    {
      if login.Refused? {
        return false;
      }
      sockets := sockets[ws := sockets[ws].(name := login.name, zone := login.zone, connected := true)];
      ok := true;
    }

    method StartSession(ws: SocketId, now: int)
      requires ws in sockets
      modifies this, groupContainer`myGroups
      ensures State() == EstablishSession(old(State()), ws, now)
    {
      var name := sockets[ws].name;
      activeSessions := activeSessions[name := ws];
      var info := groupContainer.GetGroupInfo(name);
      SetGroupId(ws, info.groupId);
      var _ := groupContainer.SetMemberOnline(name, true, now);
      SubscribeStandardTopics(ws);
      assert sockets == old(sockets)[ws := SubscribeStandard(old(sockets[ws]).(groupId := info.groupId))];
      if info.groupId != "" {
        SendGroupUpdateInfo(info.groupId);
      }
    }

    method OnConnect(ws: SocketId, login: Login, now: int)
      requires ws in sockets && SessionsLive(State())
      modifies this, groupContainer`myGroups
      ensures State() == ConnectStep(old(State()), ws, login, now)
    {
      if sockets[ws].connected {
        End(ws, now);
        return;
      }
      var ok := HandleConnect(ws, login);
      if !ok {
        End(ws, now);
        return;
      }
      var name := sockets[ws].name;
      if name in activeSessions && activeSessions[name] != ws {
        End(activeSessions[name], now);
      }
      StartSession(ws, now);
    }

    method HandleSubscribeMessage(ws: SocketId, newTopic: string)
      requires ws in sockets
      modifies this`sockets
      ensures State() == SubscribeStep(old(State()), ws, newTopic)
    {
      if ValidTopicName(newTopic) {
        StoreAndSubscribe(ws, newTopic);
      }
    }

    method StartGroupIfNone(ws: SocketId, newId: string, now: int)
      requires ws in sockets
      modifies this`sockets, groupContainer`myGroups
      ensures State() == EnsureGroup(old(State()), ws, newId, now)
    {
      if sockets[ws].groupId != "" {
        return;
      }
      var info := groupContainer.GroupStartGroup(sockets[ws].name, newId, now);
      if info.errorCode != 0 {
        assert groupContainer.myGroups == old(groupContainer.myGroups);
        return;
      }
      EnterTopic(ws, info.groupId);
    }

    method OnGroupInvite(ws: SocketId, invited: string, text: string, newId: string, now: int)
      requires ws in sockets
      modifies this, groupContainer
      ensures State() == InviteStep(old(State()), ws, invited, text, newId, now)
    {
      var inviter := sockets[ws].name;
      StartGroupIfNone(ws, newId, now);
      if sockets[ws].groupId == "" {
        return;
      }
      var check := groupContainer.GroupInvite(invited, inviter);
      if check.errorCode != SUCCESS {
        return;
      }
      groupContainer.RemoveOldInvites(now);
      groupContainer.AddInvite(inviter, invited, now);
      PublishTo(TELL_PREFIX + ToLower(invited), Serialize(FDaraChatMsg(EChatCmdType.GroupInvite, inviter, invited, text)));
    }

    method LeaveSoloGroup(ws: SocketId)
      requires ws in sockets
      modifies this`sockets, groupContainer
      ensures State() == LeaveSolo(old(State()), ws)
    {
      var name := sockets[ws].name;
      var info := groupContainer.GetGroupInfo(name);
      if info.memberCount == 1 {
        LeaveTopic(ws);
        var _ := groupContainer.GroupDisband(name);
      }
    }

    method JoinInvitersGroup(ws: SocketId, inviter: string, now: int)
      requires ws in sockets
      modifies this, groupContainer
      ensures State() == EnterGroup(old(State()), ws, inviter, now)
    {
      var name := sockets[ws].name;
      if sockets[ws].groupId != "" {
        return;
      }
      var info := groupContainer.GroupJoin(name, inviter, now);
      if info.errorCode != 0 || info.groupId == "" {
        assert groupContainer.myGroups == old(groupContainer.myGroups);
        return;
      }
      EnterTopic(ws, info.groupId);
      groupContainer.RemoveInvite(inviter, name);
      SendGroupUpdateInfo(info.groupId);
    }

    method OnGroupJoin(ws: SocketId, inviter: string, now: int)
      requires ws in sockets
      modifies this, groupContainer
      ensures State() == JoinStep(old(State()), ws, inviter, now)
    {
      var name := sockets[ws].name;
      groupContainer.RemoveOldInvites(now);
      var invited := groupContainer.CheckHasInvited(inviter, name);
      if !invited {
        return;
      }
      var target := groupContainer.GetGroupInfo(inviter);
      if target.groupId == "" || target.memberCount >= MAX_GROUP_MEMBERS {
        return;
      }
      var info := groupContainer.GetGroupInfo(name);
      if info.groupId != "" && info.groupId == target.groupId {
        return;
      }
      LeaveSoloGroup(ws);
      JoinInvitersGroup(ws, inviter, now);
    }

    method OnGroupDisband(ws: SocketId)
      requires ws in sockets
      modifies this, groupContainer
      ensures State() == DisbandStep(old(State()), ws)
    {
      var d := sockets[ws];
      if d.groupId == "" {
        return;
      }
      var topic := GroupTopic(d.groupId);
      var _ := groupContainer.GroupDisband(d.name);
      LeaveTopic(ws);
      PublishTo(topic, Serialize(FDaraChatMsg(EChatCmdType.GroupDisbandInfo, d.name, "", "left the group")));
      SendGroupUpdateInfo(topic);
    }

    method OnAlive(ws: SocketId, health: string, now: int)
      requires ws in sockets
      modifies this`sent, groupContainer`myGroups
      ensures State() == AliveStep(old(State()), ws, health, now)
    {
      var d := sockets[ws];
      groupContainer.AliveMsg(d.name, d.zone, health, now);
      PublishTo(d.groupId, Serialize(FDaraChatMsg(EChatCmdType.AliveInfo, d.name, "", d.zone + ";" + health)));
    }

    method OnBinary(ws: SocketId, data: string, valid: bool, health: string, now: int)
      requires ws in sockets
      modifies this`sent, groupContainer`myGroups
      ensures State() == BinaryStep(old(State()), ws, data, valid, health, now)
    {
      var d := sockets[ws];
      if !d.connected || d.groupId == "" || !valid {
        return;
      }
      PublishTo(d.groupId, data);
      groupContainer.AliveMsg(d.name, d.zone, health, now);
    }

    method OnCommand(ws: SocketId, parsed: FDaraChatMsg, newId: string, now: int)
      requires ws in sockets
      modifies this, groupContainer
      ensures State() == CommandStep(old(State()), ws, parsed, newId, now)
    {
      var d := sockets[ws];
      var m := parsed.(Sender := d.name);
      match m.Type {
        case Channel => PublishTo(m.Recipient, Serialize(m));
        case Zone => PublishTo(ZONE_PREFIX + d.zone, Serialize(m));
        case Group =>
          if d.groupId != "" {
            PublishTo(d.groupId, Serialize(m));
          }
        case Tell =>
          if !("DEBUG" <= m.Message) {
            PublishTo(TELL_PREFIX + ToLower(m.Recipient), Serialize(m));
          }
        case GroupInvite => OnGroupInvite(ws, m.Recipient, m.Message, newId, now);
        case GroupJoin => OnGroupJoin(ws, m.Recipient, now);
        case GroupDisband => OnGroupDisband(ws);
        case Alive => OnAlive(ws, m.Message, now);
        case _ =>
      }
    }

    method OnLegacyPublish(msg: string)
      requires |msg| >= 8
      modifies this`sent
      ensures State() == LegacyPublishStep(old(State()), msg)
    {
      var sep := FindFrom(msg, 8);
      if sep != |msg| {
        PublishTo(msg[8..sep], msg[8..]);
      }
    }

    method OnText(ws: SocketId, msg: string, login: Login, newId: string, now: int)
      requires ws in sockets && SessionsLive(State())
      modifies this, groupContainer
      ensures State() == TextStep(old(State()), ws, msg, login, newId, now)
    {
      var kind := KindOf(msg);
      if kind.LoginText? {
        OnConnect(ws, login, now);
      } else if sockets[ws].connected {
        match kind {
          case ScheduleText =>
          case SubscribeText => HandleSubscribeMessage(ws, msg[10..]);
          case UnsubscribeText => var _ := RemoveTopicSubscription(ws, msg[12..]);
          case LegacyText => OnLegacyPublish(msg);
          case OtherText => OnOtherText(ws, TryParseMessage(msg), newId, now);
        }
      }
    }

    method OnOtherText(ws: SocketId, parsed: Envelope.Parsed, newId: string, now: int)
      requires ws in sockets && SessionsLive(State())
      modifies this, groupContainer
      ensures State() == if parsed.Message? then CommandStep(old(State()), ws, parsed.msg, newId, now) else old(State())
    {
      match parsed {
        case Rejected(_) =>
        case Message(m) => OnCommand(ws, m, newId, now);
      }
    }

    /** One event from the event loop. */
    method Handle(e: Event, now: int)
      requires Legal(State(), e) && Inv(State())
      modifies this, groupContainer
      ensures State() == Step(old(State()), e, now)
      ensures Inv(State())
    {
      StepKeeps(State(), e, now);
      match e {
        case Opened(ws) => Open(ws);
        case TextFrame(ws, msg, login, newId) => OnText(ws, msg, login, newId, now);
        case BinaryFrame(ws, data, valid, health) => OnBinary(ws, data, valid, health, now);
        case Closed(ws) => End(ws, now);
      }
    }
  }
}
