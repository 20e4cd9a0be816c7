/**
 From the login frame to the observer's cache: names that pass the login cannot contain the
 separator of the group record, so the observer reads every update of every reachable group.
 */
module ObservedRuns {
  import opened Groups
  import opened ServerGroups
  import opened ServerSteps
  import opened ServerInvariant
  import opened ServerKeeps
  import opened ServerRuns
  import opened ServerInvitations
  import opened Envelope = ChatEnvelope
  import Observer = GroupObserver
  import Cuts = CutUpdates
  import Logins
  import Wrappers

  /** What logins and the id generator deliver: no ';' anywhere. */
  ghost predicate PlainEvent(e: Event) {
    e.TextFrame? ==> ';' !in e.newId && (e.login.Accepted? ==> ';' !in e.login.name)
  }

  ghost predicate PlainGroups(gs: Members) {
    forall n :: GroupOf(gs, n) != "" ==> ';' !in n && ';' !in GroupOf(gs, n)
  }

  ghost predicate PlainNames(names: set<string>) {
    forall n :: n in names ==> ';' !in n
  }

  ghost predicate Plain(s: ServerState) {
    PlainGroups(s.groups) && PlainNames(s.sessions.Keys)
  }

  /** Events whose logins went through the real login check are of that kind. */
  lemma RealLoginsArePlain(e: Event, secret: string, now: int, decode: string -> Wrappers.Option<Logins.Token>)
    requires e.TextFrame? && ';' !in e.newId
    requires e.login == Logins.AsLogin(Logins.Verdict(e.msg, secret, now, decode))
    ensures PlainEvent(e)
    ensures e.login.Accepted? ==> e.login.name != ""
  {
    if Logins.Verdict(e.msg, secret, now, decode).Accepted? {
      Logins.AcceptedMeans(e.msg, secret, now, decode);
    }
  }

  // ------------------------------------------------------------------- sessions

  lemma JoinSessions(s: ServerState, ws: SocketId, inviter: string, now: int)
    requires ws in s.sockets
    ensures JoinStep(s, ws, inviter, now).sessions == s.sessions
  {
    var s1 := s.(invites := PruneInvites(s.invites, now));
    assert LeaveSolo(s1, ws).sessions == s.sessions;
  }

  lemma DisbandSessions(s: ServerState, ws: SocketId)
    requires ws in s.sockets
    ensures DisbandStep(s, ws).sessions == s.sessions
  {
  }

  lemma CommandSessions(s: ServerState, ws: SocketId, m: FDaraChatMsg, newId: string, now: int)
    requires ws in s.sockets
    ensures CommandStep(s, ws, m, newId, now).sessions == s.sessions
  {
    match m.Type
    case GroupInvite => InviteIsEnsure(s, ws, m.Recipient, m.Message, newId, now);
    case GroupJoin => JoinSessions(s, ws, m.Recipient, now);
    case GroupDisband => DisbandSessions(s, ws);
    case Alive =>
    case _ => OnlyPublishes(s, ws, m, newId, now);
  }

  lemma CloseSessions(s: ServerState, ws: SocketId, now: int)
    requires ws in s.sockets
    ensures CloseStep(s, ws, now).sessions.Keys <= s.sessions.Keys
  {
  }

  lemma ConnectSessions(s: ServerState, ws: SocketId, login: Login, now: int, n: string)
    requires SessionsLive(s) && ws in s.sockets
    requires n in ConnectStep(s, ws, login, now).sessions
    ensures n in s.sessions || (login.Accepted? && n == login.name)
  {
    var d := s.sockets[ws];
    if d.connected || login.Refused? {
      CloseSessions(s, ws, now);
    } else {
      var s1 := WithSocket(s, ws, d.(name := login.name, zone := login.zone, connected := true));
      if login.name in s.sessions && s.sessions[login.name] != ws {
        CloseSessions(s1, s.sessions[login.name], now);
      }
    }
  }

  /** Only an accepted login adds a session, under its own name. */
  lemma DispatchSessions(s: ServerState, ws: SocketId, msg: string, parsed: Parsed, login: Login, newId: string, now: int, n: string)
    requires SessionsLive(s) && ws in s.sockets
    requires n in DispatchStep(s, ws, msg, parsed, login, newId, now).sessions
    ensures n in s.sessions || (login.Accepted? && n == login.name)
  {
    if KindOf(msg).LoginText? {
      ConnectSessions(s, ws, login, now, n);
    } else if parsed.Message? {
      CommandSessions(s, ws, parsed.msg, newId, now);
    }
  }

  lemma SessionsPlain(s: ServerState, e: Event, now: int)
    requires Inv(s) && Legal(s, e) && PlainEvent(e) && PlainNames(s.sessions.Keys)
    ensures PlainNames(Step(s, e, now).sessions.Keys)
  {
    forall n | n in Step(s, e, now).sessions ensures ';' !in n {
      if e.TextFrame? {
        DispatchSessions(s, e.ws, e.msg, TryParseMessage(e.msg), e.login, e.newId, now, n);
      }
    }
  }

  // --------------------------------------------------------------------- groups

  lemma MovePlain(before: Members, after: Members, name: string, id: string)
    requires PlainGroups(before) && OnlyMoved(before, after, name, id) && ';' !in name && ';' !in id
    ensures PlainGroups(after)
  {
  }

  lemma CommandPlain(s: ServerState, ws: SocketId, m: FDaraChatMsg, newId: string, now: int)
    requires Inv(s) && ws in s.sockets && s.sockets[ws].connected && FreshId(s.groups, newId)
    requires Plain(s) && ';' !in newId
    ensures PlainGroups(CommandStep(s, ws, m, newId, now).groups)
  {
    var name := s.sockets[ws].name;
    assert name in s.sessions;
    match m.Type
    case GroupInvite => InvitePlain(s, ws, m.Recipient, m.Message, newId, now);
    case GroupJoin => JoinPlain(s, ws, m.Recipient, now);
    case GroupDisband => DisbandPlain(s, ws);
    case Alive => AliveMovesNobody(s, ws, m.Message, now);
    case _ => OnlyPublishes(s, ws, m, newId, now);
  }

  lemma DisbandPlain(s: ServerState, ws: SocketId)
    requires Inv(s) && ws in s.sockets && s.sockets[ws].connected && PlainGroups(s.groups) && ';' !in s.sockets[ws].name
    ensures PlainGroups(DisbandStep(s, ws).groups)
  {
    DisbandKeeps(s, ws);
    MovePlain(s.groups, DisbandStep(s, ws).groups, s.sockets[ws].name, "");
  }

  lemma InvitePlain(s: ServerState, ws: SocketId, invited: string, text: string, newId: string, now: int)
    requires Inv(s) && ws in s.sockets && s.sockets[ws].connected && FreshId(s.groups, newId)
    requires Plain(s) && ';' !in newId && ';' !in s.sockets[ws].name
    ensures PlainGroups(InviteStep(s, ws, invited, text, newId, now).groups)
  {
    var s1, name := EnsureGroup(s, ws, newId, now), s.sockets[ws].name;
    EnsureGroupKeeps(s, ws, newId, now);
    InviteIsEnsure(s, ws, invited, text, newId, now);
    EnsuredId(s, ws, newId, now);
    MovePlain(s.groups, s1.groups, name, s1.sockets[ws].groupId);
  }

  lemma EnsuredId(s: ServerState, ws: SocketId, newId: string, now: int)
    requires Inv(s) && ws in s.sockets && s.sockets[ws].connected
    ensures var id := EnsureGroup(s, ws, newId, now).sockets[ws].groupId;
            id == newId || id == GroupOf(s.groups, s.sockets[ws].name)
  {
    CachedId(s, ws);
  }

  lemma JoinPlain(s: ServerState, ws: SocketId, inviter: string, now: int)
    requires Inv(s) && ws in s.sockets && s.sockets[ws].connected && Plain(s) && ';' !in s.sockets[ws].name
    ensures PlainGroups(JoinStep(s, ws, inviter, now).groups)
  {
    JoinAllOrNothing(s, ws, inviter, now);
    JoinedPlain(s.groups, JoinStep(s, ws, inviter, now).groups, s.sockets[ws].name, GroupOf(s.groups, inviter));
  }

  lemma JoinedPlain(before: Members, after: Members, name: string, id: string)
    requires PlainGroups(before) && ';' !in name
    requires (OnlyMoved(before, after, name, id) && id != "" && exists n :: GroupOf(before, n) == id)
             || forall n :: GroupOf(after, n) == GroupOf(before, n)
    ensures PlainGroups(after)
  {
  }

  lemma DispatchPlain(s: ServerState, ws: SocketId, msg: string, parsed: Parsed, login: Login, newId: string, now: int)
    requires Inv(s) && Legal(s, TextFrame(ws, msg, login, newId)) && Plain(s) && ';' !in newId
    ensures PlainGroups(DispatchStep(s, ws, msg, parsed, login, newId, now).groups)
  {
    var s' := DispatchStep(s, ws, msg, parsed, login, newId, now);
    if !NobodyMoves(s, s') {
      var m := OnlyCommandsMove(s, ws, msg, parsed, login, newId, now);
      CommandPlain(s, ws, m, newId, now);
    }
  }

  lemma StepPlain(s: ServerState, e: Event, now: int)
    requires Inv(s) && Legal(s, e) && PlainEvent(e) && Plain(s)
    ensures Plain(Step(s, e, now))
  {
    SessionsPlain(s, e, now);
    if e.TextFrame? {
      DispatchPlain(s, e.ws, e.msg, TryParseMessage(e.msg), e.login, e.newId, now);
    } else {
      NoFrameMoves(s, e, now);
    }
  }

  ghost predicate PlainRun(run: Run) {
    run.Valid() && forall k :: 0 <= k < |run.events| ==> PlainEvent(run.events[k])
  }

  /** In every reachable state stored names and group ids are free of ';'. */
  lemma {:induction false} ReachablePlain(run: Run, k: nat)
    requires PlainRun(run) && k <= |run.events|
    ensures Plain(run.states[k])
  {
    if k > 0 {
      ReachablePlain(run, k - 1);
      NextPlain(run, k - 1);
    }
  }

  lemma NextPlain(run: Run, k: nat)
    requires PlainRun(run) && k < |run.events| && Plain(run.states[k])
    ensures Plain(run.states[k + 1])
  {
    RunKeepsInvariant(run, k);
    assert run.StepAt(k) && PlainEvent(run.events[k]);
    StepPlain(run.states[k], run.events[k], run.times[k]);
  }

  lemma PlainMembers(gs: Members)
    requires WellFormed(gs) && PlainGroups(gs)
    ensures Observer.NoSemicolons(gs)
  {
    forall m | m in gs ensures ';' !in m.groupId && ';' !in m.name {
      var i :| 0 <= i < |gs| && gs[i] == m;
      IndexUnique(gs, i);
      assert GroupOf(gs, m.name) == m.groupId;
    }
  }

  /** In every reachable state, and for every group that has or once had members: whatever the
      observer had cached, once any of its bots has printed the server's update for the group the
      bots cached in it are exactly those the server has in it, if no member's name has a line
      break; and when a bot is in the group, only then or when the last member's name alone is
      cut, and cut well. */
  lemma ObserverFollowsServer(run: Run, k: nat, bots: set<string>, id: string)
    requires PlainRun(run) && k <= |run.events| && id != "" && ';' !in id && Observer.OneLine(id) && Cuts.OneLineBots(bots)
    ensures var groups := run.states[k].groups;
      && (Observer.OneLineNames(Roster(groups, id)) ==> Cuts.AlwaysFollows(bots, groups, id))
      && (Cuts.HasBot(bots, groups, id) ==>
            (Cuts.AlwaysFollows(bots, groups, id) <==> Cuts.ReadWell(bots, groups, id)))
  {
    var groups := run.states[k].groups;
    ReachablePlain(run, k);
    RunKeepsInvariant(run, k);
    PlainMembers(groups);
    if Observer.OneLineNames(Roster(groups, id)) {
      Cuts.OneLineFollows(bots, groups, id);
    }
    if Cuts.HasBot(bots, groups, id) {
      Cuts.FollowsExactly(bots, groups, id);
    }
  }
}
