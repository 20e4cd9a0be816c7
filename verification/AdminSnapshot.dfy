/**
 The administrator's view: the snapshot the server collects and the counts it answers
 with, related to the server state they are meant to describe.
 */
module AdminSnapshots {
  import opened Seqs
  import opened Groups
  import opened Envelope = ChatEnvelope
  import opened ServerSteps
  import opened ServerGroups
  import opened ServerInvariant
  import opened ChatServers

  datatype AdminSnapshot = AdminSnapshot(
    connectedClients: nat, groups: seq<GroupInfo>,
    zones: map<string, nat>, channels: map<string, nat>)

  // ------------------------------------------------------------------ counting

  /** Those who are marked with `c`. */
  ghost function Hits(marks: map<string, set<string>>, c: string): set<string> {
    set n | n in marks && c in marks[n]
  }

  /** `m` lists exactly the marks somebody has, each with the number of those who have it. */
  ghost predicate Counted(m: map<string, nat>, marks: map<string, set<string>>) {
    forall c :: (c in m <==> Hits(marks, c) != {}) && (c in m ==> m[c] == |Hits(marks, c)|)
  }

  function Bump(m: map<string, nat>, c: string): map<string, nat> {
    m[c := (if c in m then m[c] else 0) + 1]
  }

  lemma BumpCounts(m: map<string, nat>, marks: map<string, set<string>>, n: string, c: string)
    requires Counted(m, marks) && n in marks && c !in marks[n]
    ensures Counted(Bump(m, c), marks[n := marks[n] + {c}])
  {
    var after := marks[n := marks[n] + {c}];
    assert Hits(after, c) == Hits(marks, c) + {n};
    forall x | x != c ensures Hits(after, x) == Hits(marks, x) {
    }
  }

  lemma NoMarksYet(m: map<string, nat>, marks: map<string, set<string>>, n: string)
    requires Counted(m, marks) && n !in marks
    ensures Counted(m, marks[n := {}])
  {
    forall x ensures Hits(marks[n := {}], x) == Hits(marks, x) {
    }
  }

  /** The single mark of somebody new. */
  lemma CountOne(m: map<string, nat>, marks: map<string, set<string>>, n: string, c: string)
    requires Counted(m, marks) && n !in marks
    ensures Counted(Bump(m, c), marks[n := {c}])
  {
    var unmarked: set<string> := {};
    NoMarksYet(m, marks, n);
    BumpCounts(m, marks[n := unmarked], n, c);
    assert unmarked + {c} == {c};
    assert marks[n := unmarked][n := unmarked + {c}] == marks[n := {c}];
  }

  ghost function Pick(m: map<string, nat>): (k: string)
    requires m != map[]
    ensures k in m
  {
    assert m.Keys != {};
    var k :| k in m;
    k
  }

  ghost function SumValues(m: map<string, nat>): nat
    decreases |m|
  {
    if m == map[] then 0 else m[Pick(m)] + SumValues(m - {Pick(m)})
  }

  ghost predicate SingleMarks(marks: map<string, set<string>>) {
    forall n, c, x :: n in marks && c in marks[n] && x in marks[n] ==> c == x
  }

  lemma OthersStay(marks: map<string, set<string>>, k: string, c: string)
    requires SingleMarks(marks)
    ensures Hits(marks - Hits(marks, k), c) == if c == k then {} else Hits(marks, c)
  {
    if c == k {
      assert Hits(marks - Hits(marks, k), c) == {};
    }
  }

  lemma SizeAside(marks: map<string, set<string>>, k: string)
    ensures |marks| == |Hits(marks, k)| + |marks - Hits(marks, k)|
  {
    var rest := marks - Hits(marks, k);
    assert marks.Keys == rest.Keys + Hits(marks, k);
    assert |marks.Keys| == |rest.Keys| + |Hits(marks, k)|;
  }

  /** Everybody marked with `k` can be set aside together with the count for `k`. */
  lemma SetAside(m: map<string, nat>, marks: map<string, set<string>>, k: string)
    requires Counted(m, marks) && SingleMarks(marks)
    ensures Counted(m - {k}, marks - Hits(marks, k))
  {
    forall c ensures Hits(marks - Hits(marks, k), c) == if c == k then {} else Hits(marks, c) {
      OthersStay(marks, k, c);
    }
  }

  /** Counts of single marks add up to the number of those marked. */
  lemma {:induction false} CountsSum(m: map<string, nat>, marks: map<string, set<string>>)
    requires Counted(m, marks) && SingleMarks(marks)
    requires forall n :: n in marks ==> marks[n] != {}
    ensures SumValues(m) == |marks|
    decreases |m|
  {
    if m == map[] {
      SomebodyMarked(marks);
    } else {
      var k := Pick(m);
      SetAside(m, marks, k);
      SizeAside(marks, k);
      CountsSum(m - {k}, marks - Hits(marks, k));
    }
  }

  lemma SomebodyMarked(marks: map<string, set<string>>)
    requires forall n :: n in marks ==> marks[n] != {}
    ensures marks.Keys == {} || exists c :: Hits(marks, c) != {}
  {
    if marks.Keys != {} {
      var n :| n in marks.Keys;
      var c :| c in marks[n];
      assert n in Hits(marks, c);
    }
  }

  // ---------------------------------------------------------- what it describes

  predicate Listed(topic: string) {
    !(TELL_PREFIX <= topic) && !(GROUP_PREFIX <= topic) && !(ZONE_PREFIX <= topic)
  }

  /** Listed channels a socket has a used slot for, each once. */
  function ChannelsIn(topics: seq<TopicSlot>): set<string> {
    set i | 0 <= i < |topics| && topics[i].used && Listed(topics[i].topic) :: topics[i].topic
  }

  ghost function ZoneMarks(s: ServerState): map<string, set<string>>
    requires SessionsLive(s)
  {
    map n | n in s.sessions :: {s.sockets[s.sessions[n]].zone}
  }

  ghost function ChannelMarks(s: ServerState): map<string, set<string>>
    requires SessionsLive(s)
  {
    map n | n in s.sessions :: ChannelsIn(s.sockets[s.sessions[n]].topics)
  }

  ghost predicate DistinctIds(groups: seq<GroupInfo>) {
    forall i, j :: 0 <= i < j < |groups| ==> groups[i].groupId != groups[j].groupId
  }

  ghost predicate GroupsListed(groups: seq<GroupInfo>, ms: Members) {
    && DistinctIds(groups)
    && (forall i :: 0 <= i < |groups| ==> groups[i] == InfoById(ms, groups[i].groupId))
    && (forall i :: 0 <= i < |groups| ==> groups[i].groupId in GroupIds(ms))
    && (forall id :: id in GroupIds(ms) && id != "" ==> exists i :: 0 <= i < |groups| && groups[i].groupId == id)
  }

  ghost predicate Describes(snap: AdminSnapshot, s: ServerState)
    requires SessionsLive(s)
  {
    && snap.connectedClients == |s.sessions|
    && GroupsListed(snap.groups, s.groups)
    && Counted(snap.zones, ZoneMarks(s))
    && Counted(snap.channels, ChannelMarks(s))
  }

  // ------------------------------------------------------------ collecting it

  method CollectGroups(server: ChatServer) returns (groups: seq<GroupInfo>)
    ensures GroupsListed(groups, server.groupContainer.myGroups)
  {
    ghost var ms := server.groupContainer.myGroups;
    var ids := server.groupContainer.GetUniqueGroupIds();
    groups := [];
    for k := 0 to |ids|
      invariant |groups| == k
      invariant forall i :: 0 <= i < k ==> groups[i] == InfoById(ms, ids[i])
    {
      var info := server.groupContainer.GetGroupInfoByGroupId(ids[k]);
      groups := groups + [info];
    }
    forall i | 0 <= i < |groups| ensures groups[i].groupId in GroupIds(ms) {
      assert ids[i] in ids;
    }
    forall id | id in GroupIds(ms) && id != "" ensures exists i :: 0 <= i < |groups| && groups[i].groupId == id {
      assert id in ids;
      var i :| 0 <= i < |ids| && ids[i] == id;
      assert groups[i].groupId == id;
    }
  }

  method ListChannels(topics: seq<TopicSlot>) returns (channels: set<string>)
    ensures channels == ChannelsIn(topics)
  {
    channels := {};
    for i := 0 to |topics|
      invariant channels == ChannelsIn(topics[..i])
    {
      assert topics[..i + 1] == topics[..i] + [topics[i]];
      ChannelsGrow(topics[..i], topics[i]);
      if topics[i].used && Listed(topics[i].topic) {
        channels := channels + {topics[i].topic};
      }
    }
    assert topics[..|topics|] == topics;
  }

  lemma ChannelsGrow(topics: seq<TopicSlot>, slot: TopicSlot)
    ensures ChannelsIn(topics + [slot]) ==
            ChannelsIn(topics) + (if slot.used && Listed(slot.topic) then {slot.topic} else {})
  {
    var more := topics + [slot];
    assert more[|topics|] == slot;
    forall c | c in ChannelsIn(topics) ensures c in ChannelsIn(more) {
      var i :| 0 <= i < |topics| && topics[i].used && Listed(topics[i].topic) && topics[i].topic == c;
      assert more[i] == topics[i];
    }
    forall c | c in ChannelsIn(more) && !(slot.used && Listed(slot.topic) && c == slot.topic)
      ensures c in ChannelsIn(topics)
    {
      var i :| 0 <= i < |more| && more[i].used && Listed(more[i].topic) && more[i].topic == c;
      assert i < |topics| && topics[i] == more[i];
    }
  }

  /** `++state.channels[channel]` for each channel of one session. */
  method AddChannels(channels: map<string, nat>, names: set<string>, ghost marks: map<string, set<string>>, ghost n: string)
    returns (more: map<string, nat>)
    requires Counted(channels, marks) && n !in marks
    ensures Counted(more, marks[n := names])
  {
    more := channels;
    NoMarksYet(channels, marks, n);
    var rest := names;
    ghost var done: set<string> := {};
    while rest != {}
      invariant rest <= names && done == names - rest
      invariant Counted(more, marks[n := done])
      decreases rest
    {
      var c :| c in rest;
      BumpCounts(more, marks[n := done], n, c);
      assert marks[n := done][n := done + {c}] == marks[n := done + {c}];
      more := Bump(more, c);
      rest, done := rest - {c}, done + {c};
    }
    assert done == names;
  }

  lemma TakeBack(marks: map<string, set<string>>, rest: set<string>, n: string)
    requires n in rest && n in marks
    ensures n !in marks - rest && marks - (rest - {n}) == (marks - rest)[n := marks[n]]
  {
  }

  /** The loop over `activeSessions`. */
  method CountSessions(sockets: map<SocketId, DaraSocket>, sessions: map<string, SocketId>, ghost s: ServerState)
    returns (zones: map<string, nat>, channels: map<string, nat>)
    requires sockets == s.sockets && sessions == s.sessions && SessionsLive(s)
    ensures Counted(zones, ZoneMarks(s)) && Counted(channels, ChannelMarks(s))
  {
    zones, channels := map[], map[];
    var rest := sessions.Keys;
    assert ZoneMarks(s) - rest == map[] == ChannelMarks(s) - rest;
    while rest != {}
      invariant rest <= sessions.Keys
      invariant Counted(zones, ZoneMarks(s) - rest) && Counted(channels, ChannelMarks(s) - rest)
      decreases rest
    {
      var n :| n in rest;
      var data := sockets[sessions[n]];
      TakeBack(ZoneMarks(s), rest, n);
      TakeBack(ChannelMarks(s), rest, n);
      CountOne(zones, ZoneMarks(s) - rest, n, data.zone);
      zones := Bump(zones, data.zone);
      var names := ListChannels(data.topics);
      channels := AddChannels(channels, names, ChannelMarks(s) - rest, n);
      rest := rest - {n};
    }
    assert ZoneMarks(s) - rest == ZoneMarks(s) && ChannelMarks(s) - rest == ChannelMarks(s);
  }

  method CollectAdminSnapshot(server: ChatServer) returns (snap: AdminSnapshot)
    requires SessionsLive(server.State())
    ensures Describes(snap, server.State())
  {
    var groups := CollectGroups(server);
    var zones, channels := CountSessions(server.sockets, server.activeSessions, server.State());
    snap := AdminSnapshot(|server.activeSessions|, groups, zones, channels);
  }

  // --------------------------------------------------------------- conservation

  /** Zone counts add up to the number of connected clients. */
  lemma ZonesSumToClients(snap: AdminSnapshot, s: ServerState)
    requires SessionsLive(s) && Describes(snap, s)
    ensures SumValues(snap.zones) == snap.connectedClients
  {
    CountsSum(snap.zones, ZoneMarks(s));
    assert ZoneMarks(s).Keys == s.sessions.Keys;
  }

  /** All members of the listed groups, group after group. */
  ghost function AllListed(groups: seq<GroupInfo>): Members {
    if groups == [] then [] else AllListed(Front(groups)) + Last(groups).groupMembers
  }

  ghost function RostersOf(ms: Members, groups: seq<GroupInfo>): Members {
    if groups == [] then [] else RostersOf(ms, Front(groups)) + Roster(ms, Last(groups).groupId)
  }

  lemma {:induction false} ListedAreRosters(ms: Members, groups: seq<GroupInfo>)
    requires forall i :: 0 <= i < |groups| ==> groups[i] == InfoById(ms, groups[i].groupId)
    ensures AllListed(groups) == RostersOf(ms, groups)
  {
    if groups != [] {
      ListedAreRosters(ms, Front(groups));
    }
  }

  ghost predicate Mentions(groups: seq<GroupInfo>, id: string) {
    exists i :: 0 <= i < |groups| && groups[i].groupId == id
  }

  lemma {:induction false} NobodyListed(groups: seq<GroupInfo>)
    ensures RostersOf([], groups) == []
  {
    if groups != [] {
      NobodyListed(Front(groups));
    }
  }

  /** One more stored member shows up once, in its own group. */
  lemma {:induction false} OneMoreListed(ms: Members, groups: seq<GroupInfo>)
    requires ms != [] && DistinctIds(groups)
    ensures multiset(RostersOf(ms, groups)) ==
            multiset(RostersOf(Front(ms), groups)) +
            (if Mentions(groups, Last(ms).groupId) then multiset{Last(ms)} else multiset{})
  {
    if groups != [] {
      OneMoreListed(ms, Front(groups));
      MentionsFront(groups, Last(ms).groupId);
    }
  }

  lemma MentionsFront(groups: seq<GroupInfo>, id: string)
    requires groups != [] && DistinctIds(groups)
    ensures Mentions(groups, id) <==> Mentions(Front(groups), id) || Last(groups).groupId == id
    ensures !(Mentions(Front(groups), id) && Last(groups).groupId == id)
  {
    if Mentions(groups, id) {
      var i :| 0 <= i < |groups| && groups[i].groupId == id;
      assert i < |groups| - 1 ==> Front(groups)[i].groupId == id;
    }
    if Mentions(Front(groups), id) {
      var i :| 0 <= i < |Front(groups)| && Front(groups)[i].groupId == id;
      assert groups[i].groupId == id;
    }
  }

  lemma {:induction false} RostersPartition(ms: Members, groups: seq<GroupInfo>)
    requires DistinctIds(groups)
    requires forall m :: m in ms ==> Mentions(groups, m.groupId)
    ensures multiset(RostersOf(ms, groups)) == multiset(ms)
  {
    if ms == [] {
      NobodyListed(groups);
    } else {
      assert ms == Front(ms) + [Last(ms)];
      RostersPartition(Front(ms), groups);
      OneMoreListed(ms, groups);
    }
  }

  /** The listed groups partition the stored members: nobody missing, nobody twice. */
  lemma ListedGroupsPartition(snap: AdminSnapshot, s: ServerState)
    requires Inv(s) && SessionsLive(s) && Describes(snap, s)
    ensures multiset(AllListed(snap.groups)) == multiset(s.groups)
    ensures |AllListed(snap.groups)| == |s.groups|
  {
    forall m | m in s.groups ensures Mentions(snap.groups, m.groupId) {
      assert m.groupId in GroupIds(s.groups);
    }
    ListedAreRosters(s.groups, snap.groups);
    RostersPartition(s.groups, snap.groups);
    assert |multiset(AllListed(snap.groups))| == |multiset(s.groups)|;
  }

  // ------------------------------------------------------------- online groups

  predicate AnyOnline(members: Members) {
    exists k :: 0 <= k < |members| && members[k].isOnline
  }

  ghost function OnlineIds(groups: seq<GroupInfo>): set<string> {
    set i | 0 <= i < |groups| && AnyOnline(groups[i].groupMembers) :: groups[i].groupId
  }

  /** Groups with a member whose session is live. */
  ghost function LiveGroups(s: ServerState): set<string> {
    set i | 0 <= i < |s.groups| && s.groups[i].name in s.sessions :: s.groups[i].groupId
  }

  method CountOnline(groups: seq<GroupInfo>) returns (onlineGroups: nat)
    requires DistinctIds(groups)
    ensures onlineGroups == |OnlineIds(groups)|
  {
    onlineGroups := 0;
    for k := 0 to |groups|
      invariant onlineGroups == |OnlineIds(groups[..k])|
    {
      assert groups[..k + 1] == groups[..k] + [groups[k]];
      OnlineGrows(groups[..k], groups[k]);
      if AnyOnline(groups[k].groupMembers) {
        onlineGroups := onlineGroups + 1;
      }
    }
    assert groups[..|groups|] == groups;
  }

  lemma OnlineGrows(groups: seq<GroupInfo>, g: GroupInfo)
    requires DistinctIds(groups + [g])
    ensures |OnlineIds(groups + [g])| == |OnlineIds(groups)| + (if AnyOnline(g.groupMembers) then 1 else 0)
  {
    var more := groups + [g];
    assert more[|groups|] == g;
    forall i | 0 <= i < |groups| ensures more[i] == groups[i] && groups[i].groupId != g.groupId {
    }
    assert g.groupId !in OnlineIds(groups);
    forall id | id in OnlineIds(groups) ensures id in OnlineIds(more) {
      var i :| 0 <= i < |groups| && AnyOnline(groups[i].groupMembers) && groups[i].groupId == id;
      assert more[i] == groups[i];
    }
    forall id | id in OnlineIds(more) && !(AnyOnline(g.groupMembers) && id == g.groupId) ensures id in OnlineIds(groups) {
      var i :| 0 <= i < |more| && AnyOnline(more[i].groupMembers) && more[i].groupId == id;
      assert i < |groups| && groups[i] == more[i];
    }
    assert OnlineIds(more) == OnlineIds(groups) + (if AnyOnline(g.groupMembers) then {g.groupId} else {});
  }

  lemma OnlineIsLive(groups: seq<GroupInfo>, s: ServerState, id: string)
    requires Presence(s.groups, s.sessions.Keys) && GroupsListed(groups, s.groups) && id in OnlineIds(groups)
    ensures id in LiveGroups(s)
  {
    var g :| 0 <= g < |groups| && AnyOnline(groups[g].groupMembers) && groups[g].groupId == id;
    var roster := groups[g].groupMembers;
    var k :| 0 <= k < |roster| && roster[k].isOnline;
    RosterContents(s.groups, id);
    var i :| 0 <= i < |s.groups| && s.groups[i] == roster[k];
  }

  lemma LiveIsOnline(groups: seq<GroupInfo>, s: ServerState, id: string)
    requires Presence(s.groups, s.sessions.Keys) && NonemptyIds(s.groups) && GroupsListed(groups, s.groups) && id in LiveGroups(s)
    ensures id in OnlineIds(groups)
  {
    var i :| 0 <= i < |s.groups| && s.groups[i].name in s.sessions && s.groups[i].groupId == id;
    assert id in GroupIds(s.groups);
    var g :| 0 <= g < |groups| && groups[g].groupId == id;
    RosterContents(s.groups, id);
    var roster := groups[g].groupMembers;
    assert s.groups[i] in roster;
    var k :| 0 <= k < |roster| && roster[k] == s.groups[i];
    assert AnyOnline(roster);
  }

  /** The groups counted as online are those with a live session among their members. */
  lemma OnlineMeansLive(snap: AdminSnapshot, s: ServerState)
    requires Inv(s) && SessionsLive(s) && Describes(snap, s)
    ensures OnlineIds(snap.groups) == LiveGroups(s)
  {
    forall id | id in OnlineIds(snap.groups) ensures id in LiveGroups(s) {
      OnlineIsLive(snap.groups, s, id);
    }
    forall id | id in LiveGroups(s) ensures id in OnlineIds(snap.groups) {
      LiveIsOnline(snap.groups, s, id);
    }
  }

  // ------------------------------------------------------------------- answers

  datatype GroupEntry = GroupEntry(id: string, leader: string, members: seq<(string, bool)>)

  /** The reply's content; its JSON text is not modelled. */
  datatype Reply =
    | Failure(code: string)
    | Status(connectedClients: nat, totalGroups: nat, onlineGroups: nat)
    | GroupList(groups: seq<GroupEntry>)
    | ZoneList(zones: map<string, nat>)
    | ChannelList(channels: map<string, nat>)

  predicate IsAdminQuery(t: EChatCmdType) {
    t.AdminStatus? || t.AdminGroups? || t.AdminZones? || t.AdminChannels?
  }

  function EntryOf(g: GroupInfo): GroupEntry {
    GroupEntry(g.groupId, g.leaderName,
               seq(|g.groupMembers|, k requires 0 <= k < |g.groupMembers| => (g.groupMembers[k].name, g.groupMembers[k].isOnline)))
  }

  method GroupEntries(groups: seq<GroupInfo>) returns (entries: seq<GroupEntry>)
    ensures |entries| == |groups|
    ensures forall i :: 0 <= i < |groups| ==> entries[i] == EntryOf(groups[i])
  {
    entries := [];
    for i := 0 to |groups|
      invariant |entries| == i
      invariant forall j :: 0 <= j < i ==> entries[j] == EntryOf(groups[j])
    {
      var members: seq<(string, bool)> := [];
      for k := 0 to |groups[i].groupMembers|
        invariant |members| == k
        invariant forall j :: 0 <= j < k ==> members[j] == (groups[i].groupMembers[j].name, groups[i].groupMembers[j].isOnline)
      {
        members := members + [(groups[i].groupMembers[k].name, groups[i].groupMembers[k].isOnline)];
      }
      assert members == EntryOf(groups[i]).members;
      entries := entries + [GroupEntry(groups[i].groupId, groups[i].leaderName, members)];
    }
  }

  /** One entry for every group that has members, none twice, each as the container reports it. */
  ghost predicate AllGroupsListed(entries: seq<GroupEntry>, ms: Members) {
    && |entries| == |GroupIds(ms)|
    && (forall i, j :: 0 <= i < j < |entries| ==> entries[i].id != entries[j].id)
    && (forall i :: 0 <= i < |entries| ==> entries[i].id in GroupIds(ms) && entries[i] == EntryOf(InfoById(ms, entries[i].id)))
  }

  /** Whether a request is answered with server state at all. */
  predicate Answerable(request: FDaraChatMsg, isAdmin: bool) {
    isAdmin && IsAdminQuery(request.Type) && request.Recipient == "" && request.Message == ""
  }

  lemma EntriesListAll(entries: seq<GroupEntry>, snap: AdminSnapshot, s: ServerState)
    requires Inv(s) && SessionsLive(s) && Describes(snap, s)
    requires |entries| == |snap.groups|
    requires forall i :: 0 <= i < |entries| ==> entries[i] == EntryOf(snap.groups[i])
    ensures AllGroupsListed(entries, s.groups)
  {
    ListedIdsAreAll(snap, s);
  }

  method AnswerAdminQuery(request: FDaraChatMsg, isAdmin: bool, server: ChatServer) returns (reply: Reply, collected: bool)
    requires Inv(server.State()) && SessionsLive(server.State())
    ensures collected == Answerable(request, isAdmin)
    ensures !isAdmin ==> reply == Failure("Forbidden")
    ensures isAdmin && !collected ==> reply == Failure("InvalidQuery")
    ensures collected && request.Type.AdminStatus? ==>
      var s := server.State(); reply == Status(|s.sessions|, |GroupIds(s.groups)|, |LiveGroups(s)|)
    ensures collected && request.Type.AdminGroups? ==> 
      reply.GroupList? && AllGroupsListed(reply.groups, server.State().groups)
    ensures collected && request.Type.AdminZones? ==>
      reply.ZoneList? && Counted(reply.zones, ZoneMarks(server.State()))
    ensures collected && request.Type.AdminChannels? ==>
      reply.ChannelList? && Counted(reply.channels, ChannelMarks(server.State()))
  {
    if !isAdmin {
      return Failure("Forbidden"), false;
    }
    if !IsAdminQuery(request.Type) || request.Recipient != "" || request.Message != "" {
      return Failure("InvalidQuery"), false;
    }
    collected := true;
    var state := CollectAdminSnapshot(server);
    ListedIdsAreAll(state, server.State());
    if request.Type.AdminStatus? {
      var onlineGroups := CountOnline(state.groups);
      OnlineMeansLive(state, server.State());
      reply := Status(state.connectedClients, |state.groups|, onlineGroups);
    } else if request.Type.AdminGroups? {
      var entries := GroupEntries(state.groups);
      reply := GroupList(entries);
      EntriesListAll(entries, state, server.State());
    } else if request.Type.AdminZones? {
      reply := ZoneList(state.zones);
    } else {
      reply := ChannelList(state.channels);
    }
  }

  ghost function IdsOf(groups: seq<GroupInfo>): set<string> {
    set i | 0 <= i < |groups| :: groups[i].groupId
  }

  lemma LastIdIsNew(groups: seq<GroupInfo>)
    requires DistinctIds(groups) && groups != []
    ensures Last(groups).groupId !in IdsOf(Front(groups))
    ensures IdsOf(groups) == IdsOf(Front(groups)) + {Last(groups).groupId}
  {
    forall id | id in IdsOf(groups) && id != Last(groups).groupId ensures id in IdsOf(Front(groups)) {
      var i :| 0 <= i < |groups| && groups[i].groupId == id;
      assert Front(groups)[i].groupId == id;
    }
  }

  lemma {:induction false} DistinctIdsCount(groups: seq<GroupInfo>)
    requires DistinctIds(groups)
    ensures |IdsOf(groups)| == |groups|
  {
    if groups != [] {
      LastIdIsNew(groups);
      DistinctIdsCount(Front(groups));
    }
  }

  /** As many groups are listed as there are group ids in use. */
  lemma ListedIdsAreAll(snap: AdminSnapshot, s: ServerState)
    requires Inv(s) && SessionsLive(s) && Describes(snap, s)
    ensures IdsOf(snap.groups) == GroupIds(s.groups)
    ensures |snap.groups| == |GroupIds(s.groups)|
  {
    forall id | id in GroupIds(s.groups) ensures id in IdsOf(snap.groups) {
      var i :| 0 <= i < |s.groups| && s.groups[i].groupId == id;
      assert GROUP_PREFIX <= id;
      var g :| 0 <= g < |snap.groups| && snap.groups[g].groupId == id;
    }
    DistinctIdsCount(snap.groups);
  }
}
