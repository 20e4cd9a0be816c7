/**
 Logins: an accepted one wins the session from whichever socket held it, and is subscribed to what
 concerns its character; every other login frame ends its socket.
 */
module ServerLogins {
  import opened Text
  import opened Groups
  import opened ServerSteps
  import opened ServerInvariant
  import opened ServerKeeps
  import opened ServerRuns

  // --------------------------------------------------------------- who gets the session

  /** The socket that held the session, if any. */
  function Holder(s: ServerState, name: string): set<SocketId> {
    if name in s.sessions then {s.sessions[name]} else {}
  }

  /** `name` is logged in on `ws` and nowhere else; the socket that held the session before is gone;
      nothing else changes but that the character is shown online. */
  ghost predicate LoginWins(s: ServerState, s': ServerState, ws: SocketId, name: string, zone: string) {
    && ws in s.sockets && ws in s'.sockets
    && s'.sockets[ws].connected && s'.sockets[ws].name == name && s'.sockets[ws].zone == zone
    && s'.sockets[ws].groupId == GroupOf(s.groups, name)
    && s'.sessions == s.sessions[name := ws]
    && s'.sockets.Keys == s.sockets.Keys - Holder(s, name)
    && (forall w :: w in s'.sockets && w != ws ==> s'.sockets[w] == s.sockets[w])
    && s'.invites == s.invites && NobodyMoves(s, s')
    && (forall m :: m in s'.groups ==> (m.isOnline <==> m.name in s'.sessions))
  }

  /** Socket `ws` is gone, with its session if it had one; other sockets and sessions are as before. */
  ghost predicate SocketEnds(s: ServerState, s': ServerState, ws: SocketId) {
    && ws in s.sockets && s'.sockets == s.sockets - {ws}
    && s'.sessions == (if s.sockets[ws].connected then s.sessions - {s.sockets[ws].name} else s.sessions)
    && s'.invites == s.invites && NobodyMoves(s, s')
    && (forall m :: m in s'.groups ==> (m.isOnline <==> m.name in s'.sessions))
  }

  lemma EndedSocket(s: ServerState, ws: SocketId, now: int)
    requires Inv(s) && ws in s.sockets
    ensures SocketEnds(s, CloseStep(s, ws, now), ws)
  {
    CloseKeeps(s, ws, now);
    CloseMovesNobody(s, ws, now);
  }

  lemma EstablishedFields(t: ServerState, ws: SocketId, name: string, zone: string, now: int)
    requires ws in t.sockets
    ensures var s' := EstablishSession(WithSocket(t, ws, t.sockets[ws].(name := name, zone := zone, connected := true)), ws, now);
      && s'.sessions == t.sessions[name := ws] && s'.invites == t.invites
      && s'.sockets == t.sockets[ws := LoggedIn(t.sockets[ws], name, zone, GroupOf(t.groups, name))]
  {
    var d := t.sockets[ws].(name := name, zone := zone, connected := true);
    assert t.sockets[ws := d][ws := LoggedIn(t.sockets[ws], name, zone, GroupOf(t.groups, name))]
        == t.sockets[ws := LoggedIn(t.sockets[ws], name, zone, GroupOf(t.groups, name))];
  }

  /** The state once the socket that held the session, if any, has been retired. */
  function Retired(s: ServerState, name: string, now: int): ServerState
    requires SessionsLive(s)
  {
    if name in s.sessions then CloseStep(s, s.sessions[name], now) else s
  }

  lemma HolderIsOther(s: ServerState, ws: SocketId, name: string)
    requires Inv(s) && ws in s.sockets && !s.sockets[ws].connected && name in s.sessions
    ensures var prev := s.sessions[name]; prev in s.sockets && prev != ws && s.sockets[prev].connected && s.sockets[prev].name == name
  {
  }

  /** `t` is `s` without the socket that held the session. */
  ghost predicate WithoutHolder(s: ServerState, t: ServerState, ws: SocketId, name: string) {
    && ws in s.sockets && t.sockets == s.sockets - Holder(s, name) && ws in t.sockets && t.sockets[ws] == s.sockets[ws]
    && t.sessions[name := ws] == s.sessions[name := ws] && t.invites == s.invites
    && GroupOf(t.groups, name) == GroupOf(s.groups, name)
  }

  lemma HolderEnded(s: ServerState, t: ServerState, ws: SocketId, name: string)
    requires ws in s.sockets && name in s.sessions && s.sessions[name] != ws && SocketEnds(s, t, s.sessions[name])
    requires s.sockets[s.sessions[name]].connected && s.sockets[s.sessions[name]].name == name
    ensures WithoutHolder(s, t, ws, name)
  {
    assert (s.sessions - {name})[name := ws] == s.sessions[name := ws];
  }

  lemma RetiredFields(s: ServerState, ws: SocketId, name: string, now: int)
    requires Inv(s) && ws in s.sockets && !s.sockets[ws].connected
    ensures WithoutHolder(s, Retired(s, name, now), ws, name)
  {
    if name in s.sessions {
      HolderIsOther(s, ws, name);
      EndedSocket(s, s.sessions[name], now);
      HolderEnded(s, Retired(s, name, now), ws, name);
    } else {
      assert s.sockets - {} == s.sockets;
    }
  }

  lemma ConnectIs(s: ServerState, ws: SocketId, login: Login, now: int)
    requires Inv(s) && ws in s.sockets && !s.sockets[ws].connected && login.Accepted?
    ensures var t, d := Retired(s, login.name, now), s.sockets[ws];
      && ws in t.sockets
      && ConnectStep(s, ws, login, now)
         == EstablishSession(WithSocket(t, ws, d.(name := login.name, zone := login.zone, connected := true)), ws, now)
  {
    var d1 := s.sockets[ws].(name := login.name, zone := login.zone, connected := true);
    RetiredFields(s, ws, login.name, now);
    if login.name in s.sessions {
      HolderIsOther(s, ws, login.name);
      CloseCommutes(s, ws, d1, s.sessions[login.name], now);
    }
  }

  /** The socket's record after an accepted login. */
  ghost predicate RecordStored(s: ServerState, s': ServerState, ws: SocketId, name: string, zone: string) {
    && ws in s.sockets && s'.sessions == s.sessions[name := ws]
    && s'.sockets == (s.sockets - Holder(s, name))[ws := LoggedIn(s.sockets[ws], name, zone, GroupOf(s.groups, name))]
  }

  lemma LoginRecord(s: ServerState, ws: SocketId, login: Login, now: int)
    requires Inv(s) && ws in s.sockets && !s.sockets[ws].connected && login.Accepted? && login.name != ""
    ensures RecordStored(s, ConnectStep(s, ws, login, now), ws, login.name, login.zone)
  {
    ConnectIs(s, ws, login, now);
    RetiredFields(s, ws, login.name, now);
    EstablishedFields(Retired(s, login.name, now), ws, login.name, login.zone, now);
  }

  lemma RecordedWins(s: ServerState, s': ServerState, ws: SocketId, name: string, zone: string)
    requires RecordStored(s, s', ws, name, zone) && !(ws in Holder(s, name))
    ensures ws in s'.sockets && s'.sockets.Keys == s.sockets.Keys - Holder(s, name)
    ensures forall w :: w in s'.sockets && w != ws ==> s'.sockets[w] == s.sockets[w]
    ensures var d := s'.sockets[ws]; d.connected && d.name == name && d.zone == zone && d.groupId == GroupOf(s.groups, name)
  {
    LoggedInData(s.sockets[ws], name, zone, GroupOf(s.groups, name));
  }

  lemma ShownOnline(s: ServerState)
    requires Inv(s)
    ensures forall m :: m in s.groups ==> (m.isOnline <==> m.name in s.sessions)
  {
  }

  /** The newest accepted login wins. */
  lemma NewestLoginWins(s: ServerState, ws: SocketId, login: Login, now: int)
    requires Inv(s) && ws in s.sockets && !s.sockets[ws].connected && login.Accepted? && login.name != ""
    ensures LoginWins(s, ConnectStep(s, ws, login, now), ws, login.name, login.zone)
  {
    LoginRecord(s, ws, login, now);
    RecordedWins(s, ConnectStep(s, ws, login, now), ws, login.name, login.zone);
    ConnectMovesNobody(s, ws, login, now);
    ConnectKeeps(s, ws, login, now);
    ShownOnline(ConnectStep(s, ws, login, now));
  }

  /** A refused login, or a second one on the same socket, ends the socket. */
  lemma OtherLoginEnds(s: ServerState, ws: SocketId, login: Login, now: int)
    requires Inv(s) && ws in s.sockets && (login.Refused? || s.sockets[ws].connected)
    ensures SocketEnds(s, ConnectStep(s, ws, login, now), ws)
  {
    EndedSocket(s, ws, now);
  }

  // ---------------------------------------------------------------- what it then hears

  /** All slots from `i` on are free. */
  ghost predicate FreeFrom(d: DaraSocket, i: nat) {
    i < |d.topics| && forall j :: i <= j < |d.topics| ==> !d.topics[j].used
  }

  /** Storing a topic uses up one slot at most, subscribes to it, and to nothing less than before. */
  lemma StoreSubscribes(d: DaraSocket, t: string, i: nat)
    requires FreeFrom(d, i)
    ensures var d' := SubscribeTo(d, t);
      && t in d'.subscribed && d.subscribed <= d'.subscribed && |d'.topics| == |d.topics|
      && d'.zone == d.zone && d'.name == d.name && d'.groupId == d.groupId
      && (i + 1 < |d.topics| ==> FreeFrom(d', i + 1))
  {
    assert !d.topics[i].used && SlotFor(d.topics, t) <= i;
  }

  lemma StandardSubscribes(d: DaraSocket)
    requires |d.topics| == SLOTS && FreeFrom(d, 0) && (d.groupId != "" ==> GROUP_PREFIX <= d.groupId)
    ensures var d' := SubscribeStandard(d);
      && "World" in d'.subscribed && "zone_" + d.zone in d'.subscribed && "tell_" + ToLower(d.name) in d'.subscribed
      && (d.groupId != "" ==> d.groupId in d'.subscribed)
  {
    StoreSubscribes(d, "World", 0);
    var d1 := SubscribeTo(d, "World");
    StoreSubscribes(d1, ZONE_PREFIX + d.zone, 1);
    var d2 := SubscribeTo(d1, ZONE_PREFIX + d.zone);
    StoreSubscribes(d2, TELL_PREFIX + ToLower(d.name), 2);
    var d3 := SubscribeTo(d2, TELL_PREFIX + ToLower(d.name));
    if d.groupId != "" {
      StoreSubscribes(d3, d.groupId, 3);
    }
  }

  /** What a socket that has just logged in hears. */
  ghost predicate HearsOwn(s: ServerState, ws: SocketId) {
    && ws in s.sockets
    && var d := s.sockets[ws];
       && "World" in d.subscribed && "zone_" + d.zone in d.subscribed && "tell_" + ToLower(d.name) in d.subscribed
       && (d.groupId != "" ==> d.groupId in d.subscribed)
  }

  lemma LoginSubscribes(s: ServerState, ws: SocketId, login: Login, now: int)
    requires Inv(s) && ws in s.sockets && !s.sockets[ws].connected && login.Accepted? && login.name != ""
    ensures HearsOwn(ConnectStep(s, ws, login, now), ws)
  {
    var d, id := s.sockets[ws], GroupOf(s.groups, login.name);
    assert SocketOk(ws, d);
    LoginRecord(s, ws, login, now);
    LoggedInData(d, login.name, login.zone, id);
    var d' := d.(name := login.name, zone := login.zone, connected := true, groupId := id);
    StandardSubscribes(d');
    assert ConnectStep(s, ws, login, now).sockets[ws] == SubscribeStandard(d');
  }

  /** On every run: what a login frame does. */
  lemma LoginDecides(run: Run, k: nat)
    requires run.Valid() && k < |run.events| && run.events[k].TextFrame? && KindOf(run.events[k].msg).LoginText?
    ensures var s, s', e := run.states[k], run.states[k + 1], run.events[k];
      && e.ws in s.sockets
      && (if e.login.Accepted? && !s.sockets[e.ws].connected
          then LoginWins(s, s', e.ws, e.login.name, e.login.zone) && HearsOwn(s', e.ws)
          else SocketEnds(s, s', e.ws))
  {
    var s, e := run.states[k], run.events[k];
    RunKeepsInvariant(run, k);
    assert run.StepAt(k);
    if e.login.Accepted? && !s.sockets[e.ws].connected {
      NewestLoginWins(s, e.ws, e.login, run.times[k]);
      LoginSubscribes(s, e.ws, e.login, run.times[k]);
    } else {
      OtherLoginEnds(s, e.ws, e.login, run.times[k]);
    }
  }
}
