/**
 What holds in every reachable state of the chat server: sessions, cached group ids,
 presence flags and topic slots agree with the group container.
 */
module ServerInvariant {
  import opened Text
  import opened Groups
  import opened ServerGroups
  import opened ServerSteps

  // --------------------------------------------------------------- one socket

  ghost predicate Holds(d: DaraSocket, i: int) {
    0 <= i < |d.topics| && d.topics[i].used
  }

  ghost predicate TopicFits(d: DaraSocket, t: string) {
    && t != ""
    && (GROUP_PREFIX <= t ==> t == d.groupId)
    && (ZONE_PREFIX <= t ==> t == ZONE_PREFIX + d.zone)
    && (TELL_PREFIX <= t ==> t == TELL_PREFIX + ToLower(d.name))
  }

  ghost predicate NoGroupSlot(d: DaraSocket) {
    forall i :: Holds(d, i) ==> !(GROUP_PREFIX <= d.topics[i].topic)
  }

  ghost predicate NoSlot(d: DaraSocket) {
    forall i :: 0 <= i < |d.topics| ==> !d.topics[i].used
  }

  /** Every used slot holds a topic meant for this socket; at most one holds a group topic. */
  ghost predicate SlotsOk(d: DaraSocket) {
    && |d.topics| == SLOTS
    && (!d.connected ==> d.groupId == "" && NoSlot(d))
    && (forall i :: Holds(d, i) ==> TopicFits(d, d.topics[i].topic))
    && (forall i, j :: Holds(d, i) && Holds(d, j) && GROUP_PREFIX <= d.topics[i].topic && GROUP_PREFIX <= d.topics[j].topic
                       ==> i == j)
  }

  ghost predicate InUsedSlot(d: DaraSocket, t: string) {
    exists i :: Holds(d, i) && d.topics[i].topic == t
  }

  /** Every broker subscription is a placeholder of the socket or backed by a used slot. */
  ghost predicate SubscriptionsOk(ws: SocketId, d: DaraSocket) {
    forall t :: t in d.subscribed ==> t in Placeholders(ws) || InUsedSlot(d, t)
  }

  ghost predicate SocketOk(ws: SocketId, d: DaraSocket) {
    SlotsOk(d) && SubscriptionsOk(ws, d)
  }

  lemma StoredSlots(d: DaraSocket, t: string)
    requires SlotFor(d.topics, t) < |d.topics|
    ensures var d', i := SubscribeTo(d, t), SlotFor(d.topics, t);
      && Holds(d', i) && d'.topics[i].topic == t
      && forall j :: j != i ==> (Holds(d', j) <==> Holds(d, j)) && (Holds(d, j) ==> d'.topics[j] == d.topics[j])
  {
  }

  lemma SubscribeKeepsSlots(d: DaraSocket, t: string)
    requires SlotsOk(d) && d.connected && TopicFits(d, t)
    requires GROUP_PREFIX <= t ==> NoGroupSlot(d)
    ensures SlotsOk(SubscribeTo(d, t))
    ensures !(GROUP_PREFIX <= t) && NoGroupSlot(d) ==> NoGroupSlot(SubscribeTo(d, t))
  {
    if SlotFor(d.topics, t) < |d.topics| {
      StoredSlots(d, t);
    }
  }

  lemma SubscribeKeeps(ws: SocketId, d: DaraSocket, t: string)
    requires SocketOk(ws, d) && d.connected && TopicFits(d, t)
    requires GROUP_PREFIX <= t ==> NoGroupSlot(d)
    ensures SocketOk(ws, SubscribeTo(d, t))
    ensures !(GROUP_PREFIX <= t) && NoGroupSlot(d) ==> NoGroupSlot(SubscribeTo(d, t))
  {
    SubscribeKeepsSlots(d, t);
    var d' := SubscribeTo(d, t);
    if SlotFor(d.topics, t) < |d.topics| {
      StoredSlots(d, t);
      forall t' | t' in d'.subscribed && t' !in Placeholders(ws)
        ensures InUsedSlot(d', t')
      {
        if t' != t {
          var j :| Holds(d, j) && d.topics[j].topic == t';
          assert Holds(d', j) && d'.topics[j].topic == t';
        }
      }
    }
  }

  lemma FreeSlotKeeps(ws: SocketId, d: DaraSocket, i: nat)
    requires SocketOk(ws, d) && Holds(d, i)
    ensures SocketOk(ws, FreeSlot(d, i))
  {
    var d' := FreeSlot(d, i);
    assert forall j :: Holds(d', j) ==> j != i && Holds(d, j) && d'.topics[j] == d.topics[j];
    forall t | t in d'.subscribed && t !in Placeholders(ws)
      ensures InUsedSlot(d', t)
    {
      var j :| Holds(d, j) && d.topics[j].topic == t;
      assert Holds(d', j) && d'.topics[j].topic == t;
    }
  }

  lemma UnsubscribeKeeps(ws: SocketId, d: DaraSocket, t: string)
    requires SocketOk(ws, d)
    ensures SocketOk(ws, UnsubscribeFrom(d, t))
  {
    if UsedSlot(d.topics, t) < |d.topics| {
      FreeSlotKeeps(ws, d, UsedSlot(d.topics, t));
    }
  }

  /** After `RemoveGroupSubscription` no group topic is left, so the cached id can be cleared. */
  lemma UnsubscribeGroupKeeps(ws: SocketId, d: DaraSocket)
    requires SocketOk(ws, d)
    ensures NoGroupSlot(UnsubscribeGroup(d))
    ensures SocketOk(ws, UnsubscribeGroup(d).(groupId := ""))
  {
    var i := GroupSlot(d.topics);
    var d' := UnsubscribeGroup(d);
    if i < |d.topics| {
      FreeSlotKeeps(ws, d, i);
      assert forall j :: Holds(d', j) ==> j != i && Holds(d, j) && d'.topics[j] == d.topics[j];
    }
    CachedIdIrrelevant(ws, d', "");
  }

  /** Without a group slot the cached group id may be anything. */
  lemma CachedIdIrrelevant(ws: SocketId, d: DaraSocket, id: string)
    requires SocketOk(ws, d) && NoGroupSlot(d) && (id != "" ==> d.connected)
    ensures SocketOk(ws, d.(groupId := id)) && NoGroupSlot(d.(groupId := id))
  {
    var d' := d.(groupId := id);
    assert forall j :: Holds(d', j) <==> Holds(d, j);
    forall t | t in d'.subscribed && t !in Placeholders(ws)
      ensures InUsedSlot(d', t)
    {
      assert InUsedSlot(d, t);
    }
  }

  lemma SubscribeGroupKeeps(ws: SocketId, d: DaraSocket)
    requires SocketOk(ws, d) && d.connected && NoGroupSlot(d)
    requires d.groupId != "" ==> GROUP_PREFIX <= d.groupId
    ensures SocketOk(ws, SubscribeGroup(d))
  {
    if d.groupId != "" {
      assert d.groupId[0] == 'g';
      SubscribeKeeps(ws, d, d.groupId);
    }
  }

  lemma SubscribeStandardKeeps(ws: SocketId, d: DaraSocket)
    requires SocketOk(ws, d) && d.connected && NoSlot(d)
    requires d.groupId != "" ==> GROUP_PREFIX <= d.groupId
    ensures SocketOk(ws, SubscribeStandard(d))
  {
    var zone, tell := ZONE_PREFIX + d.zone, TELL_PREFIX + ToLower(d.name);
    assert zone[0] == 'z' && tell[0] == 't';
    SubscribeKeeps(ws, d, "World");
    var d1 := SubscribeTo(d, "World");
    SubscribeKeeps(ws, d1, zone);
    var d2 := SubscribeTo(d1, zone);
    SubscribeKeeps(ws, d2, tell);
    SubscribeGroupKeeps(ws, SubscribeTo(d2, tell));
  }

  // ------------------------------------------------------------ the whole state

  /** `sessions` is a bijection between names and live authenticated sockets. */
  ghost predicate SessionsOk(s: ServerState) {
    && (forall n :: n in s.sessions ==>
          && s.sessions[n] in s.sockets
          && s.sockets[s.sessions[n]].connected && s.sockets[s.sessions[n]].name == n)
    && (forall ws :: ws in s.sockets && s.sockets[ws].connected ==>
          var n := s.sockets[ws].name; n != "" && n in s.sessions && s.sessions[n] == ws)
  }

  ghost predicate SocketsOk(s: ServerState) {
    forall ws :: ws in s.sockets ==>
      && SocketOk(ws, s.sockets[ws])
      && (s.sockets[ws].connected ==> s.sockets[ws].groupId == GroupOf(s.groups, s.sockets[ws].name))
  }

  ghost predicate Inv(s: ServerState) {
    && GroupsOk(s.groups)
    && Presence(s.groups, s.sessions.Keys)
    && SessionsOk(s)
    && SocketsOk(s)
  }

  /** States that differ in log and invitations only. */
  ghost predicate SameCore(s: ServerState, s': ServerState) {
    s'.sockets == s.sockets && s'.sessions == s.sessions && s'.groups == s.groups
  }

  lemma SameCoreInv(s: ServerState, s': ServerState)
    requires Inv(s) && SameCore(s, s')
    ensures Inv(s')
  {
  }

  /** The sender's own record and group membership change; nobody else's do. */
  ghost predicate LocalChange(s: ServerState, s': ServerState, ws: SocketId) {
    && ws in s.sockets && s.sockets[ws].connected && s'.sessions == s.sessions
    && s'.sockets.Keys == s.sockets.Keys
    && (forall w :: w in s.sockets && w != ws ==> s'.sockets[w] == s.sockets[w])
    && s'.sockets[ws].name == s.sockets[ws].name && s'.sockets[ws].connected
    && OnlyMoved(s.groups, s'.groups, s.sockets[ws].name, s'.sockets[ws].groupId)
  }

  lemma LocalChangeInv(s: ServerState, s': ServerState, ws: SocketId)
    requires Inv(s) && LocalChange(s, s', ws)
    requires GroupsOk(s'.groups) && Presence(s'.groups, s.sessions.Keys) && SocketOk(ws, s'.sockets[ws])
    ensures Inv(s')
  {
    forall w | w in s'.sockets
      ensures SocketOk(w, s'.sockets[w])
      ensures s'.sockets[w].connected ==> s'.sockets[w].groupId == GroupOf(s'.groups, s'.sockets[w].name)
    {
      if w != ws && s.sockets[w].connected {
        assert s.sockets[w].name != s.sockets[ws].name;
      }
    }
  }

  lemma CachedId(s: ServerState, ws: SocketId)
    requires Inv(s) && ws in s.sockets
    ensures var d := s.sockets[ws]; d.connected ==> d.groupId == GroupOf(s.groups, d.name) && SocketOk(ws, d)
    ensures var d := s.sockets[ws]; d.connected ==> d.name in s.sessions.Keys && d.name != ""
    ensures var d := s.sockets[ws]; d.connected && d.groupId != "" ==> GROUP_PREFIX <= d.groupId
    ensures var d := s.sockets[ws]; d.connected && d.groupId == "" ==> NoGroupSlot(d)
  {
    var d := s.sockets[ws];
    if d.connected {
      assert SocketOk(ws, d);
      if d.groupId == "" {
        forall i | Holds(d, i)
          ensures !(GROUP_PREFIX <= d.topics[i].topic)
        {
          assert TopicFits(d, d.topics[i].topic);
        }
      }
    }
  }
}
