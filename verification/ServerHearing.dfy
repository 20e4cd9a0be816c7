/**
 Who goes on hearing a topic: the exact steps that end a subscription, over whole runs, and what is
 delivered to those whom no such step has silenced.
 */
module ServerHearing {
  import opened Seqs
  import opened Text
  import opened Groups
  import opened ServerSteps
  import opened ServerInvariant
  import opened ServerKeeps
  import opened ServerRuns
  import opened ServerCommands
  import opened ServerInvitations
  import opened ServerLogins
  import opened ServerDelivery
  import opened Envelope = ChatEnvelope

  predicate Hears(s: ServerState, ws: SocketId, t: string) {
    ws in s.sockets && t in s.sockets[ws].subscribed
  }

  // ------------------------------------------------------------------ what silences a socket

  /** A login frame on `w` ends `ws`: it is no good and on that very socket, or it takes over the
      session of `ws`. */
  predicate LoginEnds(s: ServerState, w: SocketId, login: Login, ws: SocketId) {
    && w in s.sockets
    && if login.Refused? || s.sockets[w].connected then w == ws else login.name in s.sessions && s.sessions[login.name] == ws
  }

  /** A command by which its sender leaves its group, if it has one. */
  predicate Leaves(s: ServerState, ws: SocketId, m: FDaraChatMsg, now: int) {
    && ws in s.sockets
    && (m.Type.GroupDisband? || (m.Type.GroupJoin? && JoinEffective(s, s.sockets[ws].name, m.Recipient, now)))
  }

  predicate TextSilences(s: ServerState, w: SocketId, k: TextKind, msg: string, parsed: Envelope.Parsed, login: Login, now: int,
                         ws: SocketId, t: string)
    requires LongEnough(k, msg)
  {
    if k.LoginText? then LoginEnds(s, w, login, ws)
    else if k.UnsubscribeText? then w == ws && msg[12..] == t
    else k.OtherText? && w == ws && parsed.Message? && GROUP_PREFIX <= t && Leaves(s, ws, parsed.msg, now)
  }

  /** Event `e` ends the subscription of `ws` to `t`: the socket is closed, loses its session or sends
      a login that is no good; it unsubscribes from `t`; or `t` is its group's and it leaves. */
  ghost predicate Silences(s: ServerState, e: Event, now: int, ws: SocketId, t: string) {
    match e
    case Opened(_) => false
    case BinaryFrame(_, _, _, _) => false
    case Closed(w) => w == ws
    case TextFrame(w, msg, login, _) => TextSilences(s, w, KindOf(msg), msg, TryParseMessage(msg), login, now, ws, t)
  }

  // ------------------------------------------------------------------------------- one step

  lemma HearerConnected(s: ServerState, ws: SocketId, t: string)
    requires Inv(s) && Hears(s, ws, t) && t !in Placeholders(ws)
    ensures s.sockets[ws].connected && InUsedSlot(s.sockets[ws], t)
  {
    var d := s.sockets[ws];
    assert SocketOk(ws, d);
    var i :| Holds(d, i) && d.topics[i].topic == t;
  }

  lemma WinnerHearing(s: ServerState, s': ServerState, w: SocketId, name: string, zone: string, ws: SocketId, t: string)
    requires LoginWins(s, s', w, name, zone) && Hears(s, ws, t) && w != ws
    ensures Hears(s', ws, t) <==> !(name in s.sessions && s.sessions[name] == ws)
  {
  }

  lemma EndHearing(s: ServerState, s': ServerState, w: SocketId, ws: SocketId, t: string)
    requires SocketEnds(s, s', w) && Hears(s, ws, t)
    ensures Hears(s', ws, t) <==> w != ws
  {
  }

  lemma LoginHearing(s: ServerState, w: SocketId, login: Login, now: int, ws: SocketId, t: string)
    requires Inv(s) && w in s.sockets && (login.Accepted? ==> login.name != "")
    requires Hears(s, ws, t) && s.sockets[ws].connected
    ensures Hears(ConnectStep(s, w, login, now), ws, t) <==> !LoginEnds(s, w, login, ws)
  {
    var s' := ConnectStep(s, w, login, now);
    if login.Accepted? && !s.sockets[w].connected {
      NewestLoginWins(s, w, login, now);
      WinnerHearing(s, s', w, login.name, login.zone, ws, t);
    } else {
      OtherLoginEnds(s, w, login, now);
      EndHearing(s, s', w, ws, t);
    }
  }

  lemma UnsubscribeHearing(d: DaraSocket, t: string, u: string)
    requires t in d.subscribed && InUsedSlot(d, t)
    ensures t in UnsubscribeFrom(d, u).subscribed <==> t != u
  {
    var i :| Holds(d, i) && d.topics[i].topic == t;
  }

  lemma SubscribeHearing(d: DaraSocket, u: string)
    ensures d.subscribed <= SubscribeTo(d, u).subscribed
  {
  }

  /** A command of one socket leaves the records of all others alone. */
  lemma OthersUntouched(s: ServerState, w: SocketId, m: FDaraChatMsg, newId: string, now: int, ws: SocketId)
    requires w in s.sockets && ws in s.sockets && w != ws
    ensures var s' := CommandStep(s, w, m, newId, now); ws in s'.sockets && s'.sockets[ws] == s.sockets[ws]
  {
    match m.Type
    case GroupInvite =>
      InviteIsStep(s, w, m, newId, now);
      OfferCore(EnsureGroup(s, w, newId, now), w, s.sockets[w].name, m.Recipient, m.Message, now);
    case GroupJoin =>
      JoinIsStep(s, w, m, newId, now);
    case GroupDisband =>
    case Alive =>
    case _ => OnlyPublishes(s, w, m, newId, now);
  }

  lemma InviteHearing(s: ServerState, ws: SocketId, m: FDaraChatMsg, newId: string, now: int, t: string)
    requires Hears(s, ws, t) && m.Type.GroupInvite?
    ensures Hears(CommandStep(s, ws, m, newId, now), ws, t)
  {
    InviteIsStep(s, ws, m, newId, now);
    OfferCore(EnsureGroup(s, ws, newId, now), ws, s.sockets[ws].name, m.Recipient, m.Message, now);
  }

  /** Leaving removes the group's topic and no other. */
  lemma LeaveHearing(s: ServerState, s': ServerState, d: DaraSocket, ws: SocketId, t: string)
    requires Inv(s') && Hears(s, ws, t) && d == UnsubscribeGroup(s.sockets[ws])
    requires ws in s'.sockets && d.subscribed <= s'.sockets[ws].subscribed && s'.sockets[ws].groupId != t
    ensures Hears(s', ws, t) <==> !(GROUP_PREFIX <= t)
  {
    if GROUP_PREFIX <= t && Hears(s', ws, t) {
      ReceiversAreMeant(s', t, ws);
    }
  }

  lemma DisbandHearing(s: ServerState, ws: SocketId, t: string)
    requires Inv(s) && Hears(s, ws, t) && s.sockets[ws].connected
    ensures Hears(DisbandStep(s, ws), ws, t) <==> !(GROUP_PREFIX <= t)
  {
    DisbandKeeps(s, ws);
    ReceiversAreMeant(s, t, ws);
    if s.sockets[ws].groupId != "" {
      LeaveHearing(s, DisbandStep(s, ws), UnsubscribeGroup(s.sockets[ws]), ws, t);
    }
  }

  lemma SoloHearing(s: ServerState, ws: SocketId, t: string)
    requires Hears(s, ws, t) && !(GROUP_PREFIX <= t)
    ensures Hears(LeaveSolo(s, ws), ws, t)
  {
  }

  lemma EnterHearing(s: ServerState, ws: SocketId, inviter: string, now: int, t: string)
    requires Hears(s, ws, t)
    ensures Hears(EnterGroup(s, ws, inviter, now), ws, t)
  {
  }

  lemma OtherTopicStays(s: ServerState, ws: SocketId, inviter: string, now: int, t: string)
    requires Hears(s, ws, t) && !(GROUP_PREFIX <= t)
    ensures Hears(JoinStep(s, ws, inviter, now), ws, t)
  {
    var s1 := s.(invites := PruneInvites(s.invites, now));
    assert Hears(s1, ws, t);
    SoloHearing(s1, ws, t);
    EnterHearing(LeaveSolo(s1, ws), ws, inviter, now, t);
  }

  lemma GroupTopicHeard(s: ServerState, ws: SocketId, t: string)
    requires Inv(s) && Hears(s, ws, t) && GROUP_PREFIX <= t
    ensures GroupOf(s.groups, s.sockets[ws].name) == t
  {
    ReceiversAreMeant(s, t, ws);
  }

  lemma SoloKeepsName(s: ServerState, ws: SocketId)
    requires ws in s.sockets
    ensures var s' := LeaveSolo(s, ws); ws in s'.sockets && s'.sockets[ws].name == s.sockets[ws].name
  {
  }

  lemma EnterKeepsName(s: ServerState, ws: SocketId, inviter: string, now: int)
    requires ws in s.sockets
    ensures var s' := EnterGroup(s, ws, inviter, now); ws in s'.sockets && s'.sockets[ws].name == s.sockets[ws].name
  {
  }

  lemma JoinKeepsName(s: ServerState, ws: SocketId, inviter: string, now: int)
    requires ws in s.sockets
    ensures var s' := JoinStep(s, ws, inviter, now); ws in s'.sockets && s'.sockets[ws].name == s.sockets[ws].name
  {
    var s1 := s.(invites := PruneInvites(s.invites, now));
    SoloKeepsName(s1, ws);
    EnterKeepsName(LeaveSolo(s1, ws), ws, inviter, now);
  }

  lemma JoinHearing(s: ServerState, ws: SocketId, inviter: string, now: int, t: string)
    requires Inv(s) && Hears(s, ws, t) && s.sockets[ws].connected
    ensures var s' := JoinStep(s, ws, inviter, now);
      Hears(s', ws, t) <==> !(GROUP_PREFIX <= t && JoinEffective(s, s.sockets[ws].name, inviter, now))
  {
    var s' := JoinStep(s, ws, inviter, now);
    JoinAllOrNothing(s, ws, inviter, now);
    if !(GROUP_PREFIX <= t) {
      OtherTopicStays(s, ws, inviter, now, t);
    } else {
      GroupTopicHeard(s, ws, t);
      JoinKeepsName(s, ws, inviter, now);
      if Hears(s', ws, t) {
        GroupTopicHeard(s', ws, t);
      }
    }
  }

  lemma CommandHearing(s: ServerState, ws: SocketId, m: FDaraChatMsg, newId: string, now: int, t: string)
    requires Inv(s) && Hears(s, ws, t) && s.sockets[ws].connected
    ensures Hears(CommandStep(s, ws, m, newId, now), ws, t) <==> !(GROUP_PREFIX <= t && Leaves(s, ws, m, now))
  {
    match m.Type
    case GroupInvite => InviteHearing(s, ws, m, newId, now, t);
    case GroupJoin =>
      JoinIsStep(s, ws, m, newId, now);
      JoinHearing(s, ws, m.Recipient, now, t);
    case GroupDisband => DisbandHearing(s, ws, t);
    case Alive =>
    case _ => OnlyPublishes(s, ws, m, newId, now);
  }

  lemma OtherTextHearing(s: ServerState, w: SocketId, m: FDaraChatMsg, newId: string, now: int, ws: SocketId, t: string)
    requires Inv(s) && w in s.sockets && Hears(s, ws, t) && s.sockets[ws].connected
    ensures Hears(CommandStep(s, w, m, newId, now), ws, t) <==> !(w == ws && GROUP_PREFIX <= t && Leaves(s, ws, m, now))
  {
    if w == ws {
      CommandHearing(s, ws, m, newId, now, t);
    } else {
      OthersUntouched(s, w, m, newId, now, ws);
    }
  }

  lemma TextHearing(s: ServerState, w: SocketId, k: TextKind, msg: string, parsed: Envelope.Parsed, login: Login, newId: string,
                    now: int, ws: SocketId, t: string)
    requires Inv(s) && w in s.sockets && LongEnough(k, msg) && (login.Accepted? ==> login.name != "")
    requires Hears(s, ws, t) && s.sockets[ws].connected && InUsedSlot(s.sockets[ws], t)
    ensures Hears(StepOfKind(s, w, k, msg, parsed, login, newId, now), ws, t)
      <==> !TextSilences(s, w, k, msg, parsed, login, now, ws, t)
  {
    match k
    case LoginText => LoginHearing(s, w, login, now, ws, t);
    case ScheduleText =>
    case SubscribeText => SubscribeHearing(s.sockets[w], msg[10..]);
    case UnsubscribeText => UnsubscribeHearing(s.sockets[ws], t, msg[12..]);
    case LegacyText =>
    case OtherText =>
      if parsed.Message? {
        OtherTextHearing(s, w, parsed.msg, newId, now, ws, t);
      }
  }

  /** A step ends the subscription of a socket to a topic exactly when it silences it; the placeholders
      it has from its opening are left aside. */
  lemma SilencedExactly(s: ServerState, e: Event, now: int, ws: SocketId, t: string)
    requires Inv(s) && Legal(s, e) && Hears(s, ws, t) && t !in Placeholders(ws)
    ensures Hears(Step(s, e, now), ws, t) <==> !Silences(s, e, now, ws, t)
  {
    HearerConnected(s, ws, t);
    match e
    case Opened(_) =>
    case TextFrame(w, msg, login, newId) =>
      TextHearing(s, w, KindOf(msg), msg, TryParseMessage(msg), login, newId, now, ws, t);
    case BinaryFrame(_, _, _, _) =>
    case Closed(w) =>
      EndedSocket(s, w, now);
      EndHearing(s, CloseStep(s, w, now), w, ws, t);
  }

  // -------------------------------------------------------------------- topics of one's own

  /** The topics clients may subscribe to by themselves: words that are not the server's. */
  predicate ClientTopic(t: string) {
    && t != "" && t != "World" && !("tell_" <= t) && !("group_" <= t) && !("zone_" <= t)
    && forall c :: c in t ==> AsciiWordCode(c as int)
  }

  /** The codes of ASCII digits, capital and small letters and the underscore. */
  predicate AsciiWordCode(c: int) {
    48 <= c <= 57 || 65 <= c <= 90 || 97 <= c <= 122 || c == 95
  }

  lemma ClientTopics(t: string)
    ensures ValidTopicName(t) <==> ClientTopic(t)
  {
    assert forall i :: 0 <= i < |t| ==> t[i] in t && (TopicChar(t[i]) <==> AsciiWordCode(t[i] as int));
  }

  /** How logins and requests to hear a topic, or not to, are written. */
  lemma FramesByPrefix(t: string)
    ensures KindOf("connect:" + t).LoginText?
    ensures KindOf("subscribe:" + t).SubscribeText? && ("subscribe:" + t)[10..] == t
    ensures KindOf("unsubscribe:" + t).UnsubscribeText? && ("unsubscribe:" + t)[12..] == t
  {
    assert ("subscribe:" + t)[0] == 's' && ("subscribe:" + t)[1] == 'u' && ("unsubscribe:" + t)[0] == 'u';
  }

  lemma SubscribeIs(s: ServerState, ws: SocketId, t: string, msg: string, login: Login, newId: string, now: int)
    requires SessionsLive(s) && ws in s.sockets && s.sockets[ws].connected
    requires KindOf(msg).SubscribeText? && msg[10..] == t
    ensures TextStep(s, ws, msg, login, newId, now) == SubscribeStep(s, ws, t)
  {
  }

  /** A client's request to subscribe is met for its own topics while a slot is free, and has no
      effect for any other text. */
  lemma SubscribeRequest(s: ServerState, ws: SocketId, t: string, login: Login, newId: string, now: int)
    requires SessionsLive(s) && ws in s.sockets && s.sockets[ws].connected
    ensures var s' := TextStep(s, ws, "subscribe:" + t, login, newId, now);
      && (ClientTopic(t) && HasFree(s.sockets[ws]) ==> Hears(s', ws, t))
      && (!ClientTopic(t) ==> s' == s)
  {
    FramesByPrefix(t);
    SubscribeIs(s, ws, t, "subscribe:" + t, login, newId, now);
    ClientTopics(t);
    if ClientTopic(t) && HasFree(s.sockets[ws]) {
      var d := s.sockets[ws];
      var j :| 0 <= j < |d.topics| && !d.topics[j].used;
      assert SlotFor(d.topics, t) <= j;
    }
  }

  // -------------------------------------------------------------------------------- whole runs

  /** No step from `j` on and before `k` silences `ws` on `t`. */
  ghost predicate Unsilenced(run: Run, j: nat, k: nat, ws: SocketId, t: string)
    requires run.Valid() && k <= |run.events|
  {
    forall i :: j <= i < k ==> !Silences(run.states[i], run.events[i], run.times[i], ws, t)
  }

  /** On every run a socket goes on hearing a topic until a step silences it. */
  lemma {:induction false} GoesOnHearing(run: Run, j: nat, k: nat, ws: SocketId, t: string)
    requires run.Valid() && j <= k <= |run.events| && Hears(run.states[j], ws, t) && t !in Placeholders(ws)
    requires Unsilenced(run, j, k, ws, t)
    ensures Hears(run.states[k], ws, t)
    decreases k - j
  {
    if j < k {
      RunKeepsInvariant(run, j);
      assert run.StepAt(j);
      SilencedExactly(run.states[j], run.events[j], run.times[j], ws, t);
      GoesOnHearing(run, j + 1, k, ws, t);
    }
  }

  /** Step `k` delivered `m` to socket `ws`. */
  ghost predicate Received(run: Run, k: nat, ws: SocketId, m: FDaraChatMsg)
    requires run.Valid() && k < |run.events|
  {
    var sent := run.states[k + 1].sent;
    && sent != [] && ws in Last(sent).receivers && Last(sent).payload == Serialize(m)
    && (':' !in m.Sender ==> TryParseMessage(Last(sent).payload) == Message(m))
  }

  /** On every run: whoever hears the topic of a chat message, since any earlier time and not silenced
      since, receives it, from its authenticated sender and word for word. */
  lemma HearerReceives(run: Run, j: nat, k: nat, ws: SocketId, m: FDaraChatMsg)
    requires CommandAt(run, k, m) && PassedOn(run.states[k].sockets[run.events[k].ws], m) && j <= k
    requires var t := TalkTopic(run.states[k].sockets[run.events[k].ws], m);
      Hears(run.states[j], ws, t) && t !in Placeholders(ws) && Unsilenced(run, j, k, ws, t)
    ensures Received(run, k, ws, m.(Sender := run.states[k].sockets[run.events[k].ws].name))
  {
    GoesOnHearing(run, j, k, ws, TalkTopic(run.states[k].sockets[run.events[k].ws], m));
    MessageDelivered(run, k, m);
  }

  /** Step `j` is an accepted login on a socket that is not logged in yet. */
  ghost predicate LogsInAt(run: Run, j: nat) {
    && run.Valid() && j < |run.events|
    && var e := run.events[j];
       && e.TextFrame? && KindOf(e.msg).LoginText? && e.login.Accepted?
       && e.ws in run.states[j].sockets && !run.states[j].sockets[e.ws].connected
  }

  lemma LoginHears(run: Run, j: nat)
    requires LogsInAt(run, j)
    ensures var e, s' := run.events[j], run.states[j + 1];
      && Hears(s', e.ws, "tell_" + ToLower(e.login.name)) && Hears(s', e.ws, "zone_" + e.login.zone) && Hears(s', e.ws, "World")
  {
    LoginDecides(run, j);
  }

  lemma OwnTopics(ws: SocketId, name: string)
    ensures "tell_" + name !in Placeholders(ws) && "zone_" + name !in Placeholders(ws)
  {
    if "tell_" + name in Placeholders(ws) {
      PlaceholderIsNoManagedTopic(ws, TELL_PREFIX + name);
    }
    if "zone_" + name in Placeholders(ws) {
      PlaceholderIsNoManagedTopic(ws, ZONE_PREFIX + name);
    }
  }

  /** The ASCII letter or other character of code `b` is that of code `a`, or its capital. */
  predicate CapitalOf(a: int, b: int) {
    a == b || (97 <= a <= 122 && b == a - 32)
  }

  /** Spelled alike but for the case of ASCII letters. */
  predicate SameButForCase(a: string, b: string) {
    |a| == |b| && forall i :: 0 <= i < |a| ==> CapitalOf(a[i] as int, b[i] as int) || CapitalOf(b[i] as int, a[i] as int)
  }

  lemma SameSmallForm(a: string, b: string)
    ensures SameButForCase(a, b) <==> ToLower(a) == ToLower(b)
  {
    if ToLower(a) == ToLower(b) {
      assert forall i :: 0 <= i < |a| ==> ToLower(a)[i] == ToLower(b)[i];
    }
  }

  /** On every run: after an accepted login, until it is silenced, the socket receives every tell to
      its character's name, whatever its case. */
  lemma TellReceived(run: Run, j: nat, k: nat, m: FDaraChatMsg)
    requires CommandAt(run, k, m) && m.Type.Tell? && !("DEBUG" <= m.Message) && LogsInAt(run, j) && j < k
    requires SameButForCase(m.Recipient, run.events[j].login.name)
    requires Unsilenced(run, j + 1, k, run.events[j].ws, "tell_" + ToLower(m.Recipient))
    ensures Received(run, k, run.events[j].ws, m.(Sender := run.states[k].sockets[run.events[k].ws].name))
  {
    SameSmallForm(m.Recipient, run.events[j].login.name);
    LoginHears(run, j);
    OwnTopics(run.events[j].ws, ToLower(m.Recipient));
    HearerReceives(run, j + 1, k, run.events[j].ws, m);
  }

  /** Likewise every zone message sent by a character logged in with the same zone. */
  lemma ZoneReceived(run: Run, j: nat, k: nat, m: FDaraChatMsg)
    requires CommandAt(run, k, m) && m.Type.Zone? && LogsInAt(run, j) && j < k
    requires run.states[k].sockets[run.events[k].ws].zone == run.events[j].login.zone
    requires Unsilenced(run, j + 1, k, run.events[j].ws, "zone_" + run.events[j].login.zone)
    ensures Received(run, k, run.events[j].ws, m.(Sender := run.states[k].sockets[run.events[k].ws].name))
  {
    LoginHears(run, j);
    OwnTopics(run.events[j].ws, run.events[j].login.zone);
    HearerReceives(run, j + 1, k, run.events[j].ws, m);
  }

  lemma JoinedHears(run: Run, j: nat, join: FDaraChatMsg)
    requires CommandAt(run, j, join) && join.Type.GroupJoin? && HasFree(run.states[j].sockets[run.events[j].ws])
    requires JoinEffective(run.states[j], run.states[j].sockets[run.events[j].ws].name, join.Recipient, run.times[j])
    ensures var id := GroupOf(run.states[j].groups, join.Recipient);
      Hears(run.states[j + 1], run.events[j].ws, id) && GROUP_PREFIX <= id
  {
    var s, ws := run.states[j], run.events[j].ws;
    CommandTaken(run, j, join);
    JoinIsStep(s, ws, join, run.events[j].newId, run.times[j]);
    JoinerHears(s, ws, join.Recipient, run.times[j]);
    JoinAllOrNothing(s, ws, join.Recipient, run.times[j]);
    StoredIdPrefixed(s, join.Recipient);
  }

  /** And after a join, with a slot to spare, everything said in the group by those whose group it is. */
  lemma GroupReceived(run: Run, j: nat, k: nat, join: FDaraChatMsg, m: FDaraChatMsg)
    requires CommandAt(run, j, join) && join.Type.GroupJoin? && HasFree(run.states[j].sockets[run.events[j].ws])
    requires JoinEffective(run.states[j], run.states[j].sockets[run.events[j].ws].name, join.Recipient, run.times[j])
    requires CommandAt(run, k, m) && m.Type.Group? && j < k
    requires var id := GroupOf(run.states[j].groups, join.Recipient);
      run.states[k].sockets[run.events[k].ws].groupId == id && Unsilenced(run, j + 1, k, run.events[j].ws, id)
    ensures Received(run, k, run.events[j].ws, m.(Sender := run.states[k].sockets[run.events[k].ws].name))
  {
    var ws, id := run.events[j].ws, GroupOf(run.states[j].groups, join.Recipient);
    JoinedHears(run, j, join);
    if id in Placeholders(ws) {
      PlaceholderIsNoManagedTopic(ws, id);
    }
    HearerReceives(run, j + 1, k, ws, m);
  }
}
