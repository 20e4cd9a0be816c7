/**
 The chat server as a step machine: what every WebSocket event turns the server's state
 into. The broker is part of each socket's record as the set of topics it is subscribed to;
 `sent` records every publication together with the sockets it reached.
 */
module ServerSteps {
  import opened Seqs
  import opened Text
  import opened Groups
  import opened Envelope = ChatEnvelope
  import opened GroupInfoCodec

  type SocketId = nat

  datatype TopicSlot = TopicSlot(topic: string, used: bool)

  /** `PerSocketData` of a live socket, and the topics the broker has it subscribed to. */
  datatype DaraSocket = DaraSocket(
    name: string, zone: string, groupId: string, topics: seq<TopicSlot>,
    connected: bool, subscribed: set<string>)

  /** A verified login; see module `Login`. */
  datatype Login = Accepted(name: string, zone: string) | Refused

  datatype Publication = Publication(topic: string, payload: string, receivers: set<SocketId>)

  datatype ServerState = ServerState(
    sockets: map<SocketId, DaraSocket>, sessions: map<string, SocketId>,
    groups: Members, invites: Invites, sent: seq<Publication>)

  const INITIAL := ServerState(map[], map[], [], [], [])

  const SLOTS := 32
  const ZONE_PREFIX := "zone_"
  const TELL_PREFIX := "tell_"

  // -------------------------------------------------------------- topic slots

  /** First slot that is free or already holds `t`: where `StoreTopicSubscription` stops. */
  function SlotFor(topics: seq<TopicSlot>, t: string): (i: nat)
    ensures i <= |topics|
    ensures i < |topics| ==> !topics[i].used || topics[i].topic == t
    ensures forall j :: 0 <= j < i ==> topics[j].used && topics[j].topic != t
  {
    if topics == [] then 0
    else
      var i := SlotFor(Front(topics), t);
      if i < |topics| - 1 then i
      else if !Last(topics).used || Last(topics).topic == t then |topics| - 1
      else |topics|
  }

  /** First used slot holding `t`. */
  function UsedSlot(topics: seq<TopicSlot>, t: string): (i: nat)
    ensures i <= |topics|
    ensures i < |topics| ==> topics[i].used && topics[i].topic == t
    ensures forall j :: 0 <= j < i ==> !(topics[j].used && topics[j].topic == t)
  {
    if topics == [] then 0
    else
      var i := UsedSlot(Front(topics), t);
      if i < |topics| - 1 then i
      else if Last(topics).used && Last(topics).topic == t then |topics| - 1
      else |topics|
  }

  /** First used slot holding a group topic. */
  function GroupSlot(topics: seq<TopicSlot>): (i: nat)
    ensures i <= |topics|
    ensures i < |topics| ==> topics[i].used && GROUP_PREFIX <= topics[i].topic
    ensures forall j :: 0 <= j < i ==> !(topics[j].used && GROUP_PREFIX <= topics[j].topic)
  {
    if topics == [] then 0
    else
      var i := GroupSlot(Front(topics));
      if i < |topics| - 1 then i
      else if Last(topics).used && GROUP_PREFIX <= Last(topics).topic then |topics| - 1
      else |topics|
  }

  /** Store a topic in a slot and, when there was room, subscribe to it. */
  function SubscribeTo(d: DaraSocket, t: string): DaraSocket {
    var i := SlotFor(d.topics, t);
    if i == |d.topics| then d
    else
      d.(topics := if d.topics[i].used then d.topics else d.topics[i := TopicSlot(t, true)],
         subscribed := d.subscribed + {t})
  }

  function FreeSlot(d: DaraSocket, i: nat): DaraSocket
    requires i < |d.topics|
  {
    d.(topics := d.topics[i := TopicSlot("none", false)], subscribed := d.subscribed - {d.topics[i].topic})
  }

  /** `RemoveTopicSubscription`. */
  function UnsubscribeFrom(d: DaraSocket, t: string): DaraSocket {
    var i := UsedSlot(d.topics, t);
    if i == |d.topics| then d else FreeSlot(d, i)
  }

  /** `RemoveGroupSubscription`. */
  function UnsubscribeGroup(d: DaraSocket): DaraSocket {
    var i := GroupSlot(d.topics);
    if i == |d.topics| then d else FreeSlot(d, i)
  }

  /** `SubscribeGroupTopic`. */
  function SubscribeGroup(d: DaraSocket): DaraSocket {
    if d.groupId == "" then d else SubscribeTo(d, GroupTopic(d.groupId))
  }

  /** `SubscribeStandardTopics`. */
  function SubscribeStandard(d: DaraSocket): DaraSocket {
    SubscribeGroup(
      SubscribeTo(SubscribeTo(SubscribeTo(d, "World"), ZONE_PREFIX + d.zone), TELL_PREFIX + ToLower(d.name)))
  }

  predicate TopicChar(c: char) {
    'a' <= c <= 'z' || 'A' <= c <= 'Z' || '0' <= c <= '9' || c == '_'
  }

  predicate ValidTopicName(t: string) {
    && !(TELL_PREFIX <= t) && t != "World"
    && !(GROUP_PREFIX <= t) && !(ZONE_PREFIX <= t)
    && t != "" && forall i :: 0 <= i < |t| ==> TopicChar(t[i])
  }

  /** Placeholder text of slot `i`, to which the socket is also subscribed when it opens. */
  function Placeholder(ws: SocketId, i: nat): string {
    PrintNat(ws) + "-" + PrintNat(i)
  }

  function Placeholders(ws: SocketId): set<string> {
    set i | 0 <= i < SLOTS :: Placeholder(ws, i)
  }

  // --------------------------------------------------------------- publishing

  function Receivers(s: ServerState, topic: string): set<SocketId> {
    set ws | ws in s.sockets && topic in s.sockets[ws].subscribed
  }

  function Publish(s: ServerState, topic: string, payload: string): ServerState {
    s.(sent := s.sent + [Publication(topic, payload, Receivers(s, topic))])
  }

  function GroupUpdateText(groups: Members, id: string): string {
    Serialize(FDaraChatMsg(EChatCmdType.GroupInfo, "GroupAdmin", "", Wire(InfoById(groups, id))))
  }

  /** `SendGroupUpdateInfo`. */
  function SendGroupUpdate(s: ServerState, id: string): ServerState {
    Publish(s, GroupTopic(id), GroupUpdateText(s.groups, id))
  }

  // ------------------------------------------------------------- event handlers

  ghost predicate SessionsLive(s: ServerState) {
    forall n :: n in s.sessions ==> s.sessions[n] in s.sockets
  }

  function WithSocket(s: ServerState, ws: SocketId, d: DaraSocket): ServerState {
    s.(sockets := s.sockets[ws := d])
  }

  function FreshSlots(ws: SocketId): seq<TopicSlot> {
    seq(SLOTS, i requires 0 <= i < SLOTS => TopicSlot(Placeholder(ws, i), false))
  }

  function OpenStep(s: ServerState, ws: SocketId): ServerState {
    WithSocket(s, ws, DaraSocket("", "", "", FreshSlots(ws), false, Placeholders(ws)))
  }

  /** The `close` handler of a socket that held `d`; its subscriptions are already gone. */
  function CloseHandler(s: ServerState, ws: SocketId, d: DaraSocket, now: int): ServerState {
    if !d.connected || d.name !in s.sessions || s.sessions[d.name] != ws then s
    else
      var s' := s.(sessions := s.sessions - {d.name}, groups := SetOnline(s.groups, d.name, false, now));
      if OnlineChanges(s.groups, d.name, false) && d.groupId != "" then SendGroupUpdate(s', d.groupId) else s'
  }

  /** `end()`, or the peer closing: the socket disappears and its close handler runs. */
  function CloseStep(s: ServerState, ws: SocketId, now: int): ServerState
    requires ws in s.sockets
  {
    CloseHandler(s.(sockets := s.sockets - {ws}), ws, s.sockets[ws], now)
  }

  /** Login of a socket whose predecessor, if any, has been retired. */
  function EstablishSession(s: ServerState, ws: SocketId, now: int): ServerState
    requires ws in s.sockets
  {
    var d := s.sockets[ws];
    var id := GroupOf(s.groups, d.name);
    var s' := s.(sessions := s.sessions[d.name := ws],
                 groups := SetOnline(s.groups, d.name, true, now),
                 sockets := s.sockets[ws := SubscribeStandard(d.(groupId := id))]);
    if id != "" then SendGroupUpdate(s', id) else s'
  }

  function ConnectStep(s: ServerState, ws: SocketId, login: Login, now: int): ServerState
    requires ws in s.sockets && SessionsLive(s)
  {
    var d := s.sockets[ws];
    if d.connected || login.Refused? then CloseStep(s, ws, now)
    else
      var s1 := WithSocket(s, ws, d.(name := login.name, zone := login.zone, connected := true));
      var s2 := if login.name in s.sessions && s.sessions[login.name] != ws
                then CloseStep(s1, s.sessions[login.name], now) else s1;
      EstablishSession(s2, ws, now)
  }

  function SubscribeStep(s: ServerState, ws: SocketId, t: string): ServerState
    requires ws in s.sockets
  {
    if ValidTopicName(t) then WithSocket(s, ws, SubscribeTo(s.sockets[ws], t)) else s
  }

  function UnsubscribeStep(s: ServerState, ws: SocketId, t: string): ServerState
    requires ws in s.sockets
  {
    WithSocket(s, ws, UnsubscribeFrom(s.sockets[ws], t))
  }

  /** The inviter starts a group when it has none. */
  function EnsureGroup(s: ServerState, ws: SocketId, newId: string, now: int): ServerState
    requires ws in s.sockets
  {
    var d := s.sockets[ws];
    var start := StartGroup(s.groups, d.name, newId, now);
    if d.groupId != "" || start.info.errorCode != 0 then s
    else
      WithSocket(s, ws, SubscribeGroup(d.(groupId := start.info.groupId))).(groups := start.members)
  }

  /** The rest of the invite handler, once the inviter has a group if it can have one. */
  function OfferInvite(s: ServerState, ws: SocketId, leader: string, invited: string, text: string, now: int): ServerState
    requires ws in s.sockets
  {
    if s.sockets[ws].groupId == "" || CheckInvite(s.groups, invited, leader).errorCode != SUCCESS then s
    else
      Publish(s.(invites := PruneInvites(s.invites, now) + [GroupInviteData(leader, invited, now)]),
              TELL_PREFIX + ToLower(invited),
              Serialize(FDaraChatMsg(EChatCmdType.GroupInvite, leader, invited, text)))
  }

  function InviteStep(s: ServerState, ws: SocketId, invited: string, text: string, newId: string, now: int): ServerState
    requires ws in s.sockets
  {
    OfferInvite(EnsureGroup(s, ws, newId, now), ws, s.sockets[ws].name, invited, text, now)
  }

  /** A one-member group is left before joining another. */
  function LeaveSolo(s: ServerState, ws: SocketId): ServerState
    requires ws in s.sockets
  {
    var d := s.sockets[ws];
    if InfoByName(s.groups, d.name).memberCount != 1 then s
    else
      WithSocket(s, ws, UnsubscribeGroup(d).(groupId := ""))
        .(groups := LeaveGroup(s.groups, d.name).members,
          invites := InvitesAfterLeaving(s.groups, s.invites, d.name))
  }

  /** The tail of the join handler: join unless the socket still has a group. */
  function EnterGroup(s: ServerState, ws: SocketId, inviter: string, now: int): ServerState
    requires ws in s.sockets
  {
    var d := s.sockets[ws];
    var joined := JoinGroup(s.groups, d.name, inviter, now);
    if d.groupId != "" || joined.info.errorCode != 0 || joined.info.groupId == "" then s
    else
      SendGroupUpdate(
        WithSocket(s, ws, SubscribeGroup(d.(groupId := joined.info.groupId)))
          .(groups := joined.members, invites := DropInvite(s.invites, inviter, d.name)),
        joined.info.groupId)
  }

  /** Whether the checks before leaving the solo group pass. */
  predicate JoinAllowed(s: ServerState, name: string, inviter: string) {
    var target := InfoByName(s.groups, inviter);
    var own := InfoByName(s.groups, name);
    && HasInvited(s.invites, inviter, name)
    && target.groupId != "" && target.memberCount < MAX_GROUP_MEMBERS
    && !(own.groupId != "" && own.groupId == target.groupId)
  }

  function JoinStep(s: ServerState, ws: SocketId, inviter: string, now: int): ServerState
    requires ws in s.sockets
  {
    var s1 := s.(invites := PruneInvites(s.invites, now));
    if !JoinAllowed(s1, s.sockets[ws].name, inviter) then s1
    else EnterGroup(LeaveSolo(s1, ws), ws, inviter, now)
  }

  function DisbandStep(s: ServerState, ws: SocketId): ServerState
    requires ws in s.sockets
  {
    var d := s.sockets[ws];
    if d.groupId == "" then s
    else
      var topic := GroupTopic(d.groupId);
      var s1 := WithSocket(s, ws, UnsubscribeGroup(d).(groupId := ""))
        .(groups := LeaveGroup(s.groups, d.name).members,
          invites := InvitesAfterLeaving(s.groups, s.invites, d.name));
      var s2 := Publish(s1, topic, Serialize(FDaraChatMsg(EChatCmdType.GroupDisbandInfo, d.name, "", "left the group")));
      SendGroupUpdate(s2, topic)
  }

  function AliveStep(s: ServerState, ws: SocketId, health: string, now: int): ServerState
    requires ws in s.sockets
  {
    var d := s.sockets[ws];
    Publish(s.(groups := MarkAlive(s.groups, d.name, d.zone, health, now)), d.groupId,
            Serialize(FDaraChatMsg(EChatCmdType.AliveInfo, d.name, "", d.zone + ";" + health)))
  }

  /** A binary frame; `health` is what its validated content reports, if it is valid. */
  function BinaryStep(s: ServerState, ws: SocketId, data: string, valid: bool, health: string, now: int): ServerState
    requires ws in s.sockets
  {
    var d := s.sockets[ws];
    if !d.connected || d.groupId == "" || !valid then s
    else
      var s1 := Publish(s, d.groupId, data);
      s1.(groups := MarkAlive(s1.groups, d.name, d.zone, health, now))
  }

  /** A parsed chat command of an authenticated socket; the sender field is overwritten. */
  function CommandStep(s: ServerState, ws: SocketId, m: FDaraChatMsg, newId: string, now: int): ServerState
    requires ws in s.sockets
  {
    var d := s.sockets[ws];
    var text := Serialize(m.(Sender := d.name));
    match m.Type
    case Channel => Publish(s, m.Recipient, text)
    case Zone => Publish(s, ZONE_PREFIX + d.zone, text)
    case Group => if d.groupId == "" then s else Publish(s, d.groupId, text)
    case Tell => if "DEBUG" <= m.Message then s else Publish(s, TELL_PREFIX + ToLower(m.Recipient), text)
    case GroupInvite => InviteStep(s, ws, m.Recipient, m.Message, newId, now)
    case GroupJoin => JoinStep(s, ws, m.Recipient, now)
    case GroupDisband => DisbandStep(s, ws)
    case Alive => AliveStep(s, ws, m.Message, now)
    case _ => s
  }

  /** `publish:<topic>:...`, the legacy path. */
  function LegacyPublishStep(s: ServerState, msg: string): ServerState
    requires |msg| >= 8
  {
    var sep := FindFrom(msg, 8);
    if sep == |msg| then s else Publish(s, msg[8..sep], msg[8..])
  }

  datatype TextKind = LoginText | ScheduleText | SubscribeText | UnsubscribeText | LegacyText | OtherText

  /** A text of this kind is at least as long as what it begins with. */
  predicate LongEnough(k: TextKind, msg: string) {
    match k
    case SubscribeText => |msg| >= 10
    case UnsubscribeText => |msg| >= 12
    case LegacyText => |msg| >= 8
    case _ => true
  }

  /** How the text handler tells texts apart. */
  function KindOf(msg: string): (k: TextKind)
    ensures LongEnough(k, msg)
  {
    if "connect:" <= msg then LoginText
    else if "schedule:" <= msg then ScheduleText
    else if "subscribe:" <= msg then SubscribeText
    else if "unsubscribe:" <= msg then UnsubscribeText
    else if "publish:" <= msg then LegacyText
    else OtherText
  }

  function StepOfKind(s: ServerState, ws: SocketId, k: TextKind, msg: string, parsed: Envelope.Parsed, login: Login, newId: string, now: int)
      : ServerState
    requires ws in s.sockets && SessionsLive(s) && LongEnough(k, msg)
  {
    if k.LoginText? then ConnectStep(s, ws, login, now)
    else if !s.sockets[ws].connected then s
    else
      match k
      case ScheduleText => s
      case SubscribeText => SubscribeStep(s, ws, msg[10..])
      case UnsubscribeText => UnsubscribeStep(s, ws, msg[12..])
      case LegacyText => LegacyPublishStep(s, msg)
      case OtherText => if parsed.Message? then CommandStep(s, ws, parsed.msg, newId, now) else s
  }

  /** The text handler, given what the envelope parser makes of the text. */
  function DispatchStep(s: ServerState, ws: SocketId, msg: string, parsed: Envelope.Parsed, login: Login, newId: string, now: int)
      : ServerState
    requires ws in s.sockets && SessionsLive(s)
  {
    StepOfKind(s, ws, KindOf(msg), msg, parsed, login, newId, now)
  }

  function TextStep(s: ServerState, ws: SocketId, msg: string, login: Login, newId: string, now: int): ServerState
    requires ws in s.sockets && SessionsLive(s)
  {
    DispatchStep(s, ws, msg, TryParseMessage(msg), login, newId, now)
  }

  datatype Event =
    | Opened(ws: SocketId)
    | TextFrame(ws: SocketId, msg: string, login: Login, newId: string)
    | BinaryFrame(ws: SocketId, data: string, valid: bool, health: string)
    | Closed(ws: SocketId)

  /** Handlers run for live sockets only; a login name is never empty; a fresh id is fresh. */
  ghost predicate Legal(s: ServerState, e: Event) {
    match e
    case Opened(ws) => ws !in s.sockets
    case TextFrame(ws, _, login, newId) =>
      ws in s.sockets && FreshId(s.groups, newId) && (login.Accepted? ==> login.name != "")
    case BinaryFrame(ws, _, _, _) => ws in s.sockets
    case Closed(ws) => ws in s.sockets
  }

  ghost function Step(s: ServerState, e: Event, now: int): ServerState
    requires Legal(s, e) && SessionsLive(s)
  {
    match e
    case Opened(ws) => OpenStep(s, ws)
    case TextFrame(ws, msg, login, newId) => TextStep(s, ws, msg, login, newId, now)
    case BinaryFrame(ws, data, valid, health) => BinaryStep(s, ws, data, valid, health, now)
    case Closed(ws) => CloseStep(s, ws, now)
  }
}
