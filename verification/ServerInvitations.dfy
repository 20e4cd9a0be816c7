/**
 Invitations over whole runs: what a join does to them, how long they last, and that an accepted
 invitation lets the invited character in.
 */
module ServerInvitations {
  import opened Seqs
  import opened Text
  import opened Groups
  import opened ServerGroups
  import opened ServerSteps
  import opened ServerInvariant
  import opened ServerKeeps
  import opened ServerRuns
  import opened ServerCommands
  import opened Envelope = ChatEnvelope
  import Logins
  import Wrappers

  // ------------------------------------------------------------ what a join leaves

  /** A join request of `name` that takes effect: the checks pass, and it is free or alone. */
  predicate JoinEffective(s: ServerState, name: string, inviter: string, now: int) {
    && JoinAllowed(s.(invites := PruneInvites(s.invites, now)), name, inviter)
    && InfoByName(s.groups, name).memberCount <= 1
  }

  /** What is left of the invitations when a join takes effect. */
  function LeftByJoin(invites: Invites, alone: bool, inviter: string, name: string): Invites {
    DropInvite(if alone then DropInvitesOf(invites, name) else invites, inviter, name)
  }

  lemma JoinLeaves(s: ServerState, ws: SocketId, inviter: string, now: int)
    requires Inv(s) && ws in s.sockets && s.sockets[ws].connected
    ensures var name := s.sockets[ws].name; var pruned := PruneInvites(s.invites, now);
      JoinStep(s, ws, inviter, now).invites ==
        if JoinEffective(s, name, inviter, now)
        then LeftByJoin(pruned, InfoByName(s.groups, name).memberCount == 1, inviter, name) else pruned
  {
    var name := s.sockets[ws].name;
    var s1 := s.(invites := PruneInvites(s.invites, now));
    SameCoreInv(s, s1);
    if JoinAllowed(s1, name, inviter) {
      LeaveSoloKeeps(s1, ws);
      if InfoByName(s.groups, name).memberCount <= 1 {
        JoinTakesEffect(s1, ws, inviter, now);
      } else {
        CachedId(s1, ws);
      }
    }
  }

  /** What a join request does to the invitations: outdated ones go; when it takes effect, so do
      the one it used, as spelled by the request, and those the joiner had issued alone. */
  lemma JoinInvitations(s: ServerState, ws: SocketId, inviter: string, now: int, i: GroupInviteData)
    requires Inv(s) && ws in s.sockets && s.sockets[ws].connected
    ensures var name := s.sockets[ws].name; var count := InfoByName(s.groups, name).memberCount;
      i in JoinStep(s, ws, inviter, now).invites <==>
        && i in s.invites && now - i.storeTime <= MAX_INVITE_AGE
        && (JoinEffective(s, name, inviter, now) ==>
              !(i.leaderName == inviter && i.memberName == name) && !(count == 1 && i.leaderName == name))
  {
    JoinLeaves(s, ws, inviter, now);
  }

  lemma JoinTakesEffect(s: ServerState, ws: SocketId, inviter: string, now: int)
    requires Inv(s) && ws in s.sockets && s.sockets[ws].connected
    requires JoinAllowed(s, s.sockets[ws].name, inviter) && InfoByName(s.groups, s.sockets[ws].name).memberCount <= 1
    ensures EnterGroup(LeaveSolo(s, ws), ws, inviter, now).invites ==
            DropInvite(LeaveSolo(s, ws).invites, inviter, s.sockets[ws].name)
  {
    var s2 := LeaveSolo(s, ws);
    LeaveSoloKeeps(s, ws);
    JoinEnters(s, s2, ws, inviter, now);
    CachedId(s, ws);
    CachedId(s2, ws);
  }

  ghost predicate Matches(i: GroupInviteData, inviter: string, name: string) {
    SameIgnoringCase(i.leaderName, inviter) && SameIgnoringCase(i.memberName, name)
  }

  lemma InvitedMeansMatch(invites: Invites, inviter: string, name: string)
    ensures HasInvited(invites, inviter, name) <==> exists i :: i in invites && Matches(i, inviter, name)
  {
    if HasInvited(invites, inviter, name) {
      var k :| 0 <= k < |invites| && Matches(invites[k], inviter, name);
      assert invites[k] in invites;
    }
    if i :| i in invites && Matches(i, inviter, name) {
      var k :| 0 <= k < |invites| && invites[k] == i;
    }
  }

  /** Acceptance ignores ASCII case but removal does not: after a join that took effect no
      invitation admits the joiner again exactly when every one that could have, other than its
      own, spells both names as the request did. */
  lemma InvitationUsedUp(s: ServerState, ws: SocketId, inviter: string, now: int)
    requires Inv(s) && ws in s.sockets && s.sockets[ws].connected
    requires JoinEffective(s, s.sockets[ws].name, inviter, now)
    ensures var name := s.sockets[ws].name; var count := InfoByName(s.groups, name).memberCount;
      !HasInvited(JoinStep(s, ws, inviter, now).invites, inviter, name) <==>
        forall i :: i in s.invites && now - i.storeTime <= MAX_INVITE_AGE && Matches(i, inviter, name)
                    && !(count == 1 && i.leaderName == name)
                    ==> i.leaderName == inviter && i.memberName == name
  {
    var name, left := s.sockets[ws].name, JoinStep(s, ws, inviter, now).invites;
    InvitedMeansMatch(left, inviter, name);
    forall i: GroupInviteData
      ensures i in left <==>
        && i in s.invites && now - i.storeTime <= MAX_INVITE_AGE
        && !(i.leaderName == inviter && i.memberName == name)
        && !(InfoByName(s.groups, name).memberCount == 1 && i.leaderName == name)
    {
      JoinInvitations(s, ws, inviter, now, i);
    }
  }

  // ------------------------------------------------------- how long invitations last

  /** The event is a command that ends invitation `i`: it prunes outdated ones, is the very join
      the invitation is for, or makes its leader give up a group of one. */
  ghost predicate Ends(s: ServerState, e: Event, now: int, i: GroupInviteData) {
    && e.TextFrame? && e.ws in s.sockets && s.sockets[e.ws].connected && TryParseMessage(e.msg).Message?
    && var name, m := s.sockets[e.ws].name, TryParseMessage(e.msg).msg;
       var alone := InfoByName(s.groups, name).memberCount == 1;
       || ((m.Type.GroupInvite? || m.Type.GroupJoin?) && now - i.storeTime > MAX_INVITE_AGE)
       || (m.Type.GroupJoin? && JoinEffective(s, name, m.Recipient, now)
           && ((i.memberName == name && i.leaderName == m.Recipient) || (i.leaderName == name && alone)))
       || (m.Type.GroupDisband? && i.leaderName == name && alone)
  }

  lemma InviteIsEnsure(s: ServerState, ws: SocketId, invited: string, text: string, newId: string, now: int)
    requires ws in s.sockets
    ensures var s1, s' := EnsureGroup(s, ws, newId, now), InviteStep(s, ws, invited, text, newId, now);
      s'.sockets == s1.sockets && s'.groups == s1.groups && s'.sessions == s.sessions
  {
    assert EnsureGroup(s, ws, newId, now).sessions == s.sessions;
  }

  lemma InviteStored(s: ServerState, ws: SocketId, invited: string, text: string, newId: string, now: int)
    requires ws in s.sockets
    requires var s1 := EnsureGroup(s, ws, newId, now);
      s1.sockets[ws].groupId != "" && CheckInvite(s1.groups, invited, s.sockets[ws].name).errorCode == SUCCESS
    ensures var s1, s' := EnsureGroup(s, ws, newId, now), InviteStep(s, ws, invited, text, newId, now);
      && s'.groups == s1.groups && s'.sockets == s1.sockets
      && GroupInviteData(s.sockets[ws].name, invited, now) in s'.invites
  {
    var s1 := EnsureGroup(s, ws, newId, now);
    var all := PruneInvites(s1.invites, now) + [GroupInviteData(s.sockets[ws].name, invited, now)];
    assert all[|all| - 1] in all;
  }

  lemma InviteEnds(s: ServerState, ws: SocketId, invited: string, text: string, newId: string, now: int, i: GroupInviteData)
    requires ws in s.sockets && i in s.invites && i !in InviteStep(s, ws, invited, text, newId, now).invites
    ensures now - i.storeTime > MAX_INVITE_AGE
  {
    assert EnsureGroup(s, ws, newId, now).invites == s.invites;
  }

  lemma DisbandEnds(s: ServerState, ws: SocketId, i: GroupInviteData)
    requires ws in s.sockets && i in s.invites && i !in DisbandStep(s, ws).invites
    ensures i.leaderName == s.sockets[ws].name && InfoByName(s.groups, i.leaderName).memberCount == 1
  {
  }

  lemma TalkEndsNone(s: ServerState, ws: SocketId, m: FDaraChatMsg, newId: string, now: int)
    requires ws in s.sockets && (!GroupCommand(m.Type) || m.Type.Alive?)
    ensures CommandStep(s, ws, m, newId, now).invites == s.invites
  {
  }

  /** Nothing else ends an invitation. */
  lemma StepEnds(s: ServerState, e: Event, now: int, i: GroupInviteData)
    requires Inv(s) && Legal(s, e) && i in s.invites && i !in Step(s, e, now).invites
    ensures Ends(s, e, now, i)
  {
    match e
    case Opened(_) =>
    case BinaryFrame(_, _, _, _) =>
    case Closed(ws) => CloseMovesNobody(s, ws, now);
    case TextFrame(ws, msg, login, newId) =>
      if KindOf(msg).LoginText? {
        ConnectMovesNobody(s, ws, login, now);
      } else {
        CommandReached(s, ws, msg, TryParseMessage(msg), login, newId, now);
        CommandEnds(s, ws, TryParseMessage(msg).msg, newId, now, i);
      }
  }

  lemma CommandEnds(s: ServerState, ws: SocketId, m: FDaraChatMsg, newId: string, now: int, i: GroupInviteData)
    requires Inv(s) && ws in s.sockets && s.sockets[ws].connected
    requires i in s.invites && i !in CommandStep(s, ws, m, newId, now).invites
    ensures var name := s.sockets[ws].name; var alone := InfoByName(s.groups, name).memberCount == 1;
      || ((m.Type.GroupInvite? || m.Type.GroupJoin?) && now - i.storeTime > MAX_INVITE_AGE)
      || (m.Type.GroupJoin? && JoinEffective(s, name, m.Recipient, now)
          && ((i.memberName == name && i.leaderName == m.Recipient) || (i.leaderName == name && alone)))
      || (m.Type.GroupDisband? && i.leaderName == name && alone)
  {
    match m.Type
    case GroupInvite => InviteEnds(s, ws, m.Recipient, m.Message, newId, now, i);
    case GroupJoin => JoinInvitations(s, ws, m.Recipient, now, i);
    case GroupDisband => DisbandEnds(s, ws, i);
    case _ => TalkEndsNone(s, ws, m, newId, now);
  }

  /** No step from `j` on and before `k` ends invitation `i`. */
  ghost predicate Undisturbed(run: Run, j: nat, k: nat, i: GroupInviteData)
    requires run.Valid() && k <= |run.events|
  {
    forall m :: j <= m < k ==> !Ends(run.states[m], run.events[m], run.times[m], i)
  }

  /** On every run an invitation stays until a step that ends it. */
  lemma {:induction false} InvitationLasts(run: Run, j: nat, k: nat, i: GroupInviteData)
    requires run.Valid() && j <= k <= |run.events| && i in run.states[j].invites && Undisturbed(run, j, k, i)
    ensures i in run.states[k].invites
    decreases k - j
  {
    if j < k {
      RunKeepsInvariant(run, j);
      assert run.StepAt(j);
      if i !in run.states[j + 1].invites {
        StepEnds(run.states[j], run.events[j], run.times[j], i);
      }
      InvitationLasts(run, j + 1, k, i);
    }
  }

  lemma InviteIsStep(s: ServerState, ws: SocketId, m: FDaraChatMsg, id: string, now: int)
    requires ws in s.sockets && m.Type.GroupInvite?
    ensures CommandStep(s, ws, m, id, now) == InviteStep(s, ws, m.Recipient, m.Message, id, now)
  {
  }

  lemma JoinIsStep(s: ServerState, ws: SocketId, m: FDaraChatMsg, id: string, now: int)
    requires ws in s.sockets && m.Type.GroupJoin?
    ensures CommandStep(s, ws, m, id, now) == JoinStep(s, ws, m.Recipient, now)
  {
    match m.Type
    case GroupJoin =>
  }

  /** The command a step processes, and that the step does what the command says. */
  lemma CommandOf(run: Run, k: nat, name: string, t: EChatCmdType, recipient: string) returns (ws: SocketId, m: FDaraChatMsg, newId: string)
    requires run.Valid() && k < |run.events| && IsCommand(run.states[k], run.events[k], name, t, recipient)
    ensures m.Type == t && m.Recipient == recipient
    ensures var s := run.states[k];
      && Inv(s) && FreshId(s.groups, newId) && ws in s.sockets && s.sockets[ws].connected && s.sockets[ws].name == name
      && run.states[k + 1] == CommandStep(s, ws, m, newId, run.times[k])
  {
    var e := run.events[k];
    ws, m, newId := e.ws, TryParseMessage(e.msg).msg, e.newId;
    CommandTaken(run, k, m);
  }

  lemma AcceptedStores(s: ServerState, ws: SocketId, m: FDaraChatMsg, newId: string, now: int)
    requires Inv(s) && FreshId(s.groups, newId) && ws in s.sockets && s.sockets[ws].connected && m.Type.GroupInvite?
    requires MayInvite(InviteStep(s, ws, m.Recipient, m.Message, newId, now), s.sockets[ws].name, m.Recipient)
    ensures GroupInviteData(s.sockets[ws].name, m.Recipient, now) in CommandStep(s, ws, m, newId, now).invites
  {
    InviteIsStep(s, ws, m, newId, now);
    EnsureGroupKeeps(s, ws, newId, now);
    InviteIsEnsure(s, ws, m.Recipient, m.Message, newId, now);
    InviteStored(s, ws, m.Recipient, m.Message, newId, now);
  }

  /** An accepted invitation is stored, stamped with the time of its step. */
  lemma AcceptedIsStored(run: Run, j: nat, leader: string, member: string)
    requires run.Valid() && j < |run.events|
    requires AcceptedInvite(run.states[j], run.events[j], run.states[j + 1], leader, member)
    ensures GroupInviteData(leader, member, run.times[j]) in run.states[j + 1].invites
  {
    var ws, m, newId := CommandOf(run, j, leader, EChatCmdType.GroupInvite, member);
    InviteIsStep(run.states[j], ws, m, newId, run.times[j]);
    AcceptedStores(run.states[j], ws, m, newId, run.times[j]);
  }

  /** The inviter has a group with room, and `name` has none or is alone in another. */
  predicate RoomToJoin(s: ServerState, inviter: string, name: string) {
    var own, target := InfoByName(s.groups, name), InfoByName(s.groups, inviter);
    && own.memberCount <= 1 && target.groupId != "" && target.memberCount < 6
    && own.groupId != target.groupId
  }

  lemma JoinFollows(s: ServerState, ws: SocketId, inviter: string, now: int, i: GroupInviteData)
    requires Inv(s) && ws in s.sockets && s.sockets[ws].connected
    requires i in s.invites && now - i.storeTime <= MAX_INVITE_AGE && Matches(i, inviter, s.sockets[ws].name)
    requires RoomToJoin(s, inviter, s.sockets[ws].name)
    ensures Moves(s, JoinStep(s, ws, inviter, now), s.sockets[ws].name, GroupOf(s.groups, inviter))
  {
    assert i in PruneInvites(s.invites, now);
    InvitedMeansMatch(PruneInvites(s.invites, now), inviter, s.sockets[ws].name);
    JoinAllOrNothing(s, ws, inviter, now);
  }

  lemma JoinAtStep(run: Run, k: nat, i: GroupInviteData, inviter: string, name: string)
    requires run.Valid() && k < |run.events| && IsJoin(run.states[k], run.events[k], name, inviter)
    requires i in run.states[k].invites && run.times[k] - i.storeTime <= MAX_INVITE_AGE && Matches(i, inviter, name)
    requires RoomToJoin(run.states[k], inviter, name)
    ensures Moves(run.states[k], run.states[k + 1], name, GroupOf(run.states[k].groups, inviter))
  {
    var ws, m, newId := CommandOf(run, k, name, EChatCmdType.GroupJoin, inviter);
    JoinIsStep(run.states[k], ws, m, newId, run.times[k]);
    JoinFollows(run.states[k], ws, inviter, run.times[k], i);
  }

  /** An invitation is good for 180 seconds. Suppose it is stored at some moment (by `AcceptedIsStored`,
      right after the step that accepted it), no step until step k ends it, and at step k, not more
      than 180 seconds after it was stored, the guest asks to join, spelling both names up to case.
      If the inviter then has a group with room and the guest none or one of its own, the guest is in
      the inviter's group afterwards, and nobody else has moved. */
  lemma InvitedMayJoin(run: Run, j: nat, k: nat, i: GroupInviteData, inviter: string, name: string)
    requires run.Valid() && j <= k < |run.events| && i in run.states[j].invites && Undisturbed(run, j, k, i)
    requires IsJoin(run.states[k], run.events[k], name, inviter)
    requires run.times[k] - i.storeTime <= 180 && Matches(i, inviter, name)
    requires RoomToJoin(run.states[k], inviter, name)
    ensures Moves(run.states[k], run.states[k + 1], name, GroupOf(run.states[k].groups, inviter))
  {
    InvitationLasts(run, j, k, i);
    JoinAtStep(run, k, i, inviter, name);
  }

  // ------------------------------------------------ an invitation that is not used up

  /** A character without a group that invites starts one, alone, and leads it. */
  lemma InviterLeads(s: ServerState, ws: SocketId, invited: string, newId: string, now: int)
    requires Inv(s) && ws in s.sockets && s.sockets[ws].connected && FreshId(s.groups, newId)
    requires GroupOf(s.groups, s.sockets[ws].name) == "" && GroupOf(s.groups, invited) == "" && invited != s.sockets[ws].name
    ensures var s1, name := EnsureGroup(s, ws, newId, now), s.sockets[ws].name;
      && s1.sockets[ws].groupId != "" && OnlyMoved(s.groups, s1.groups, name, newId)
      && CheckInvite(s1.groups, invited, name).errorCode == SUCCESS
      && InfoByName(s1.groups, name).memberCount == 1
  {
    var name := s.sockets[ws].name;
    CachedId(s, ws);
    StartFacts(s.groups, name, newId, now, s.sessions.Keys);
    var m := NewMember(name, newId, true, now);
    assert EnsureGroup(s, ws, newId, now).groups == s.groups + [m];
    AppendQueries(s.groups, m);
    RosterEmpty(s.groups, newId);
    LeadsAsLast(s.groups, m);
  }

  lemma LeadsAsLast(gs: Members, m: GroupMember)
    requires m.isLeader
    ensures HasLeader(gs + [m], m.groupId) && LeaderName(gs + [m], m.groupId) == m.name
  {
    assert Last(gs + [m]) == m;
  }

  lemma FirstInvitation(s: ServerState, a: SocketId, b: SocketId, spelled: string, text: string, newId: string, now: int)
    requires Inv(s) && FreshId(s.groups, newId) && a != b && b in s.sockets
    requires a in s.sockets && s.sockets[a].connected && spelled != s.sockets[a].name
    requires GroupOf(s.groups, s.sockets[a].name) == GroupOf(s.groups, spelled) == ""
    ensures var s1, leader := InviteStep(s, a, spelled, text, newId, now), s.sockets[a].name;
      && Inv(s1) && b in s1.sockets && s1.sockets[b] == s.sockets[b]
      && GroupInviteData(leader, spelled, now) in s1.invites
      && OnlyMoved(s.groups, s1.groups, leader, newId) && InfoByName(s1.groups, leader).memberCount == 1
  {
    InviterLeads(s, a, spelled, newId, now);
    InviteKeeps(s, a, spelled, text, newId, now);
    InviteIsEnsure(s, a, spelled, text, newId, now);
    InviteStored(s, a, spelled, text, newId, now);
  }

  lemma JoinedAsSpelled(s: ServerState, b: SocketId, leader: string, spelled: string, invited: int, now: int)
    requires Inv(s) && b in s.sockets && s.sockets[b].connected && spelled != s.sockets[b].name
    requires Matches(GroupInviteData(leader, spelled, invited), leader, s.sockets[b].name)
    requires GroupInviteData(leader, spelled, invited) in s.invites && now - invited <= MAX_INVITE_AGE
    requires GroupOf(s.groups, s.sockets[b].name) == "" && GroupOf(s.groups, leader) != ""
    requires InfoByName(s.groups, leader).memberCount == 1
    ensures var name, s' := s.sockets[b].name, JoinStep(s, b, leader, now);
      && JoinEffective(s, name, leader, now)
      && GroupOf(s'.groups, name) == GroupOf(s.groups, leader) && HasInvited(s'.invites, leader, name)
  {
    var i := GroupInviteData(leader, spelled, invited);
    JoinFollows(s, b, leader, now, i);
    assert i in PruneInvites(s.invites, now);
    InvitedMeansMatch(PruneInvites(s.invites, now), leader, s.sockets[b].name);
    InvitationUsedUp(s, b, leader, now);
  }

  /** Somebody invites `spelled`, a name that differs from the guest's in case only and is nobody's;
      the guest joins; and the invitation still admits the guest. */
  lemma InvitationSurvivesJoin(s: ServerState, a: SocketId, b: SocketId, spelled: string, text: string, newId: string,
                               invited: int, joined: int)
    requires Inv(s) && FreshId(s.groups, newId) && joined - invited <= MAX_INVITE_AGE
    requires a in s.sockets && s.sockets[a].connected && b in s.sockets && s.sockets[b].connected && a != b
    requires var leader, name := s.sockets[a].name, s.sockets[b].name;
      && leader != name && spelled != leader && spelled != name && SameIgnoringCase(spelled, name)
      && GroupOf(s.groups, leader) == GroupOf(s.groups, name) == GroupOf(s.groups, spelled) == ""
    ensures var leader, name, s1 := s.sockets[a].name, s.sockets[b].name, InviteStep(s, a, spelled, text, newId, invited);
      && b in s1.sockets && JoinEffective(s1, name, leader, joined)
      && GroupOf(JoinStep(s1, b, leader, joined).groups, name) == newId
      && HasInvited(JoinStep(s1, b, leader, joined).invites, leader, name)
  {
    FirstInvitation(s, a, b, spelled, text, newId, invited);
    JoinedAsSpelled(InviteStep(s, a, spelled, text, newId, invited), b, s.sockets[a].name, spelled, invited, joined);
  }

  // ------------------------------------------------------ a run that gets there

  ghost function Extend(run: Run, e: Event, now: int): Run
    requires run.Valid() && SessionsLive(Last(run.states)) && Legal(Last(run.states), e)
  {
    Run(run.states + [Step(Last(run.states), e, now)], run.events + [e], run.times + [now])
  }

  lemma ExtendedRun(run: Run, e: Event, now: int)
    requires run.Valid() && SessionsLive(Last(run.states)) && Legal(Last(run.states), e)
    ensures Extend(run, e, now).Valid()
  {
    var longer := Extend(run, e, now);
    forall k | 0 <= k < |longer.events| ensures longer.StepAt(k) {
      if k < |run.events| {
        assert run.StepAt(k);
      }
    }
  }

  lemma EstablishTouches(s: ServerState, ws: SocketId, now: int)
    requires ws in s.sockets
    ensures var d, s' := s.sockets[ws], EstablishSession(s, ws, now);
      && s'.sessions == s.sessions[d.name := ws]
      && s'.sockets == s.sockets[ws := SubscribeStandard(d.(groupId := GroupOf(s.groups, d.name)))]
  {
  }

  lemma StandardKeepsName(d: DaraSocket)
    ensures SubscribeStandard(d).name == d.name && SubscribeStandard(d).connected == d.connected
  {
  }

  lemma FirstLoginStep(s: ServerState, ws: SocketId, login: Login, now: int)
    requires SessionsLive(s) && ws in s.sockets && !s.sockets[ws].connected
    requires login.Accepted? && login.name !in s.sessions
    ensures var s' := ConnectStep(s, ws, login, now);
      && s'.sessions == s.sessions[login.name := ws] && s'.sockets.Keys == s.sockets.Keys
      && s'.sockets[ws].connected && s'.sockets[ws].name == login.name
      && forall x :: x in s.sockets && x != ws ==> s'.sockets[x] == s.sockets[x]
  {
    var d := s.sockets[ws].(name := login.name, zone := login.zone, connected := true);
    var s1 := WithSocket(s, ws, d);
    EstablishTouches(s1, ws, now);
    StandardKeepsName(d.(groupId := GroupOf(s1.groups, d.name)));
    assert ConnectStep(s, ws, login, now) == EstablishSession(s1, ws, now);
  }

  /** A first login leaves everything else as it is. */
  lemma FirstLogin(s: ServerState, ws: SocketId, login: Login, now: int)
    requires Inv(s) && ws in s.sockets && !s.sockets[ws].connected
    requires login.Accepted? && login.name != "" && login.name !in s.sessions
    ensures Inv(ConnectStep(s, ws, login, now)) && NobodyMoves(s, ConnectStep(s, ws, login, now))
  {
    ConnectKeeps(s, ws, login, now);
    ConnectMovesNobody(s, ws, login, now);
  }

  lemma NoMembers(gs: Members)
    requires WellFormed(gs)
    ensures gs == [] || exists n :: GroupOf(gs, n) != ""
  {
    if gs != [] {
      IndexUnique(gs, 0);
      assert GroupOf(gs, gs[0].name) == gs[0].groupId;
    }
  }

  /** What the login check goes by: the server's secret, its clock, and the decoding of tokens. */
  datatype Gate = Gate(secret: string, clock: int, decode: string -> Wrappers.Option<Logins.Token>)

  datatype Visitor = Visitor(name: string, pass: string)

  function LoginMessage(v: Visitor): string {
    Logins.LoginText(Logins.LoginFor(v.name, v.pass))
  }

  /** The visitor's pass is a good token for its name. */
  ghost predicate Admits(gate: Gate, v: Visitor) {
    && gate.secret != "" && v.name != "" && ';' !in v.name && v.pass != "" && ';' !in v.pass
    && gate.decode(v.pass).Some?
    && Logins.TokenGood(gate.decode(v.pass).value, gate.clock)
    && gate.decode(v.pass).value.characterName == Logins.Present(v.name)
  }

  /** The login an event carries is the verdict of the login check on its text. */
  ghost predicate Checked(e: Event, gate: Gate) {
    e.TextFrame? ==> e.login == Logins.AsLogin(Logins.Verdict(e.msg, gate.secret, gate.clock, gate.decode))
  }

  ghost predicate AllChecked(run: Run, gate: Gate) {
    forall k :: 0 <= k < |run.events| ==> Checked(run.events[k], gate)
  }

  lemma VisitorPasses(gate: Gate, v: Visitor)
    requires Admits(gate, v)
    ensures KindOf(LoginMessage(v)).LoginText?
    ensures Checked(TextFrame(0, LoginMessage(v), Login.Accepted(v.name, ""), ""), gate)
  {
    Logins.NamesThatLogIn(v.name, v.pass, gate.decode(v.pass).value, gate.secret, gate.clock, gate.decode);
  }

  ghost predicate Nobody(s: ServerState) {
    Inv(s) && forall n :: GroupOf(s.groups, n) == ""
  }

  ghost predicate LoggedIn(s: ServerState, ws: SocketId, name: string) {
    ws in s.sockets && s.sockets[ws].connected && s.sockets[ws].name == name
  }

  ghost predicate StayLoggedIn(s: ServerState, s': ServerState) {
    forall x, name :: LoggedIn(s, x, name) ==> LoggedIn(s', x, name)
  }

  /** One more connection. */
  lemma Opens(run: Run, ws: SocketId, gate: Gate) returns (longer: Run)
    requires run.Valid() && AllChecked(run, gate) && Nobody(Last(run.states)) && ws !in Last(run.states).sockets
    ensures longer.Valid() && AllChecked(longer, gate) && |longer.events| == |run.events| + 1 && Nobody(Last(longer.states))
    ensures var s, s' := Last(run.states), Last(longer.states);
      && s'.sessions == s.sessions && s'.sockets.Keys == s.sockets.Keys + {ws} && !s'.sockets[ws].connected
      && StayLoggedIn(s, s')
  {
    longer := OneMore(run, Opened(ws), 0, gate);
    OpenKeeps(Last(run.states), ws);
  }

  lemma LoginFrame(s: ServerState, ws: SocketId, v: Visitor, gate: Gate) returns (e: Event)
    requires Nobody(s) && ws in s.sockets && Admits(gate, v)
    ensures Legal(s, e) && Checked(e, gate) && Step(s, e, 0) == ConnectStep(s, ws, Login.Accepted(v.name, ""), 0)
  {
    VisitorPasses(gate, v);
    NoMembers(s.groups);
    e := TextFrame(ws, LoginMessage(v), Login.Accepted(v.name, ""), "group_0");
  }

  /** From `s` to `s'` `name` has logged in on socket `ws`; nothing else is new. */
  ghost predicate LoginDone(s: ServerState, s': ServerState, ws: SocketId, name: string) {
    && Nobody(s') && s'.sessions == s.sessions[name := ws] && s'.sockets.Keys == s.sockets.Keys && LoggedIn(s', ws, name)
    && StayLoggedIn(s, s')
  }

  lemma NobodyAfterLogin(s: ServerState, ws: SocketId, name: string)
    requires Nobody(s) && ws in s.sockets && !s.sockets[ws].connected && name != "" && name !in s.sessions
    ensures Nobody(ConnectStep(s, ws, Login.Accepted(name, ""), 0))
  {
    FirstLogin(s, ws, Login.Accepted(name, ""), 0);
  }

  lemma LoginDoes(s: ServerState, ws: SocketId, name: string)
    requires Nobody(s) && ws in s.sockets && !s.sockets[ws].connected && name != "" && name !in s.sessions
    ensures LoginDone(s, ConnectStep(s, ws, Login.Accepted(name, ""), 0), ws, name)
  {
    NobodyAfterLogin(s, ws, name);
    FirstLoginStep(s, ws, Login.Accepted(name, ""), 0);
    OthersStay(s, ConnectStep(s, ws, Login.Accepted(name, ""), 0), ws);
  }

  lemma OthersStay(s: ServerState, s': ServerState, ws: SocketId)
    requires ws in s.sockets && !s.sockets[ws].connected
    requires forall x :: x in s.sockets && x != ws ==> x in s'.sockets && s'.sockets[x] == s.sockets[x]
    ensures StayLoggedIn(s, s')
  {
  }

  /** One more login. */
  lemma LogsIn(run: Run, ws: SocketId, v: Visitor, gate: Gate) returns (longer: Run)
    requires run.Valid() && AllChecked(run, gate) && Nobody(Last(run.states)) && Admits(gate, v)
    requires var s := Last(run.states); ws in s.sockets && !s.sockets[ws].connected && v.name !in s.sessions
    ensures longer.Valid() && AllChecked(longer, gate) && |longer.events| == |run.events| + 1
    ensures LoginDone(Last(run.states), Last(longer.states), ws, v.name)
  {
    var e := LoginFrame(Last(run.states), ws, v, gate);
    LoginDoes(Last(run.states), ws, v.name);
    longer := OneMore(run, e, 0, gate);
  }

  lemma OneMore(run: Run, e: Event, now: int, gate: Gate) returns (longer: Run)
    requires run.Valid() && AllChecked(run, gate) && Inv(Last(run.states)) && Legal(Last(run.states), e) && Checked(e, gate)
    ensures longer.Valid() && AllChecked(longer, gate)
    ensures longer.states == run.states + [Step(Last(run.states), e, now)]
    ensures longer.events == run.events + [e] && longer.times == run.times + [now]
  {
    ExtendedRun(run, e, now);
    longer := Extend(run, e, now);
    assert longer.events == run.events + [e];
  }

  /** From `s` to `s'` `name` has connected and logged in. */
  ghost predicate ArrivalDone(s: ServerState, s': ServerState, ws: SocketId, name: string) {
    && Nobody(s') && s'.sessions.Keys == s.sessions.Keys + {name} && s'.sockets.Keys == s.sockets.Keys + {ws}
    && LoggedIn(s', ws, name) && StayLoggedIn(s, s')
  }

  lemma OpenedThenLoggedIn(s: ServerState, s1: ServerState, s2: ServerState, ws: SocketId, name: string)
    requires s1.sessions == s.sessions && s1.sockets.Keys == s.sockets.Keys + {ws} && StayLoggedIn(s, s1)
    requires LoginDone(s1, s2, ws, name)
    ensures ArrivalDone(s, s2, ws, name)
  {
  }

  /** Somebody connects and logs in. */
  lemma Arrives(run: Run, ws: SocketId, v: Visitor, gate: Gate) returns (longer: Run)
    requires run.Valid() && AllChecked(run, gate) && Nobody(Last(run.states)) && Admits(gate, v)
    requires ws !in Last(run.states).sockets && v.name !in Last(run.states).sessions
    ensures longer.Valid() && AllChecked(longer, gate) && |longer.events| == |run.events| + 2
    ensures ArrivalDone(Last(run.states), Last(longer.states), ws, v.name)
  {
    var connected := Opens(run, ws, gate);
    longer := LogsIn(connected, ws, v, gate);
    OpenedThenLoggedIn(Last(run.states), Last(connected.states), Last(longer.states), ws, v.name);
  }

  lemma BothArrive(a: Visitor, b: Visitor, gate: Gate) returns (run: Run)
    requires Admits(gate, a) && Admits(gate, b) && a.name != b.name
    ensures run.Valid() && AllChecked(run, gate) && |run.events| == 4
    ensures var s := Last(run.states); Nobody(s) && LoggedIn(s, 0, a.name) && LoggedIn(s, 1, b.name)
  {
    run := Run([INITIAL], [], []);
    assert run.Valid();
    RunKeepsInvariant(run, 0);
    run := Arrives(run, 0, a, gate);
    run := Arrives(run, 1, b, gate);
  }

  lemma CommandIsNoLogin(msg: string, gate: Gate)
    requires TryParseMessage(msg).Message?
    ensures Checked(TextFrame(0, msg, Login.Refused, ""), gate)
  {
    CommandNotReserved(msg);
  }

  /** One more chat command. */
  lemma Commands(run: Run, ws: SocketId, m: FDaraChatMsg, newId: string, now: int, gate: Gate) returns (longer: Run)
    requires run.Valid() && AllChecked(run, gate) && Inv(Last(run.states)) && FreshId(Last(run.states).groups, newId)
    requires ws in Last(run.states).sockets && Last(run.states).sockets[ws].connected
    requires m.Type != None && ':' !in m.Sender && ':' !in m.Recipient
    ensures longer.Valid() && AllChecked(longer, gate)
    ensures longer.states == run.states + [CommandStep(Last(run.states), ws, m, newId, now)]
    ensures |longer.events| == |run.events| + 1 && Last(longer.times) == now
    ensures IsCommand(Last(run.states), Last(longer.events), Last(run.states).sockets[ws].name, m.Type, m.Recipient)
  {
    var s, e := Last(run.states), TextFrame(ws, Serialize(m), Login.Refused, newId);
    ParseAfterPrint(m);
    CommandNotReserved(e.msg);
    CommandIsNoLogin(e.msg, gate);
    longer := OneMore(run, e, now, gate);
    DispatchedAsCommand(s, ws, e.msg, m, e.login, newId, now);
  }

  lemma FreshForAll(gs: Members, leader: string, id: string)
    requires GROUP_PREFIX <= id && WellFormed(gs) && GroupOf(gs, leader) != id && forall n :: n != leader ==> GroupOf(gs, n) == ""
    ensures FreshId(gs, id)
  {
    forall i | 0 <= i < |gs| ensures gs[i].groupId != id {
      IndexUnique(gs, i);
      assert GroupOf(gs, gs[i].name) == gs[i].groupId;
    }
  }

  /** An invitation by `leader` that spells the guest's name differently; the guest is there and free. */
  ghost predicate Awaiting(s: ServerState, leader: string, name: string, spelled: string, other: string) {
    && Inv(s) && LoggedIn(s, 1, name) && FreshId(s.groups, other)
    && GroupInviteData(leader, spelled, 0) in s.invites
    && GroupOf(s.groups, name) == "" && GroupOf(s.groups, leader) != "" && InfoByName(s.groups, leader).memberCount == 1
  }

  lemma InviteCommand(s: ServerState, m: FDaraChatMsg, leader: string, name: string, id: string, other: string)
    requires Nobody(s) && LoggedIn(s, 0, leader) && LoggedIn(s, 1, name) && FreshId(s.groups, id) && leader != name
    requires m.Type.GroupInvite? && m.Recipient != leader && GROUP_PREFIX <= other && id != other
    ensures Awaiting(CommandStep(s, 0, m, id, 0), leader, name, m.Recipient, other)
  {
    var s' := InviteStep(s, 0, m.Recipient, m.Message, id, 0);
    InviteIsStep(s, 0, m, id, 0);
    FirstInvitation(s, 0, 1, m.Recipient, m.Message, id, 0);
    FreshForAll(s'.groups, leader, other);
  }

  lemma JoinCommand(s: ServerState, m: FDaraChatMsg, name: string, spelled: string, other: string)
    requires Awaiting(s, m.Recipient, name, spelled, other) && m.Type.GroupJoin?
    requires spelled != name && SameIgnoringCase(spelled, name)
    ensures var s' := CommandStep(s, 1, m, other, 0);
      && JoinEffective(s, name, m.Recipient, 0)
      && GroupOf(s'.groups, name) != "" && HasInvited(s'.invites, m.Recipient, name)
  {
    JoinIsStep(s, 1, m, other, 0);
    JoinedAsSpelled(s, 1, m.Recipient, spelled, 0, 0);
  }

  lemma InviteAndJoin(before: Run, invite: FDaraChatMsg, join: FDaraChatMsg, leader: string, name: string, id: string, other: string,
                      gate: Gate)
    returns (run: Run, s: ServerState, s': ServerState)
    requires before.Valid() && AllChecked(before, gate) && Nobody(Last(before.states)) && FreshId(Last(before.states).groups, id)
    requires LoggedIn(Last(before.states), 0, leader) && LoggedIn(Last(before.states), 1, name) && leader != name
    requires invite.Type.GroupInvite? && invite.Recipient != leader && GROUP_PREFIX <= other && id != other
    requires join.Type.GroupJoin? && join.Recipient == leader && invite.Recipient != name && SameIgnoringCase(invite.Recipient, name)
    requires ':' !in invite.Sender && ':' !in invite.Recipient && ':' !in join.Sender && ':' !in join.Recipient
    ensures run.Valid() && AllChecked(run, gate) && |run.events| == |before.events| + 2 && run.states[|run.events| - 1] == s && Last(run.states) == s'
    ensures IsJoin(s, Last(run.events), name, leader) && JoinEffective(s, name, leader, Last(run.times))
    ensures GroupOf(s'.groups, name) != "" && HasInvited(s'.invites, leader, name)
  {
    InviteCommand(Last(before.states), invite, leader, name, id, other);
    var invited := Commands(before, 0, invite, id, 0, gate);
    s := Last(invited.states);
    JoinCommand(s, join, name, invite.Recipient, other);
    run := Commands(invited, 1, join, other, 0, gate);
    s' := Last(run.states);
  }

  lemma Spellings()
    ensures "Alice" != "Bob" && "bob" != "Alice" && "bob" != "Bob" && SameIgnoringCase("bob", "Bob")
  {
    assert CStr("bob") == "bob" && CStr("Bob") == "Bob" && ToLower("bob") == ToLower("Bob");
  }

  /** A run in which it happens: Alice and Bob, with good tokens, log in, she invites "bob", he
      joins her; the invitation is still there and still admits him. */
  lemma SurvivingRun(gate: Gate, alice: Visitor, bob: Visitor) returns (run: Run, s: ServerState, s': ServerState)
    requires alice.name == "Alice" && bob.name == "Bob" && Admits(gate, alice) && Admits(gate, bob)
    ensures run.Valid() && AllChecked(run, gate) && |run.events| == 6 && run.states[5] == s && run.states[6] == s'
    ensures IsJoin(s, run.events[5], "Bob", "Alice") && JoinEffective(s, "Bob", "Alice", run.times[5])
    ensures GroupOf(s'.groups, "Bob") != "" && HasInvited(s'.invites, "Alice", "Bob")
  {
    Spellings();
    var before := BothArrive(alice, bob, gate);
    NoMembers(Last(before.states).groups);
    run, s, s' := InviteAndJoin(before, FDaraChatMsg(EChatCmdType.GroupInvite, "", "bob", ""),
                                FDaraChatMsg(EChatCmdType.GroupJoin, "", "Alice", ""), "Alice", "Bob", "group_1", "group_2", gate);
  }
}
