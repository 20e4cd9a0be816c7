/**
 The test controller that watches its bots' output: the second, independent parser of the
 `GroupInfo` line, its cache of who is in which group, and its record of greetings.
 */
module GroupObserver {
  import opened Seqs
  import opened Wrappers
  import opened Text
  import opened Groups
  import opened GroupInfoCodec
  import Server = ServerSteps
  import Envelope = ChatEnvelope

  // ------------------------------------------------------------ Python's parsing

  function PyStrip(s: string): string {
    if s == "" then ""
    else if IsSpace(s[0]) then PyStrip(s[1..])
    else if IsSpace(s[|s| - 1]) then PyStrip(s[..|s| - 1])
    else s
  }

  /** Digits, with single underscores allowed between them. */
  function PyDigits(s: string): Option<nat> {
    if s == "" || !IsDigit(s[|s| - 1]) then None
    else
      var d := DigitValue(s[|s| - 1]);
      if |s| == 1 then Some(d)
      else
        match PyDigits(if s[|s| - 2] == '_' then s[..|s| - 2] else s[..|s| - 1])
        case None => None
        case Some(n) => Some(10 * n + d)
  }

  /** `int(...)`; `None` stands for ValueError. */
  function PyInt(text: string): Option<int> {
    var s := PyStrip(text);
    if s != "" && (s[0] == '-' || s[0] == '+') then
      match PyDigits(s[1..])
      case None => None
      case Some(n) => Some(Negate(s[0] == '-', n))
    else
      match PyDigits(s)
      case None => None
      case Some(n) => Some(n)
  }

  /** `line.split(d, n)`: at most `n` cuts, so the last piece may hold more separators. */
  function SplitAtMost(s: string, d: char, n: nat): seq<string> {
    var parts := Split(s, d);
    if |parts| <= n + 1 then parts else parts[..n] + [Join(parts[n..], d)]
  }

  // --------------------------------------------------------------- roster lines

  const ROSTER_PREFIX := "Received:GroupInfo:GroupAdmin::"
  const LEAVE_PREFIX := "CONTROL SENT leave"
  const DISBAND_PREFIX := "Received:GroupDisbandInfo:"
  const LEFT := "left the group"

  predicate GoodEntry(entry: string) {
    var i := FindLast(entry, ',');
    i >= 0 && (entry[i + 1..] == "0" || entry[i + 1..] == "1")
  }

  function NameIn(entry: string): string {
    var i := FindLast(entry, ',');
    if i >= 0 then entry[..i] else entry
  }

  datatype Report = Ignored | Listing(id: string, names: set<string>)

  function ReadFields(fields: seq<string>): Report {
    if |fields| < 5 then Ignored
    else
      match (PyInt(fields[3]), PyInt(fields[4]))
      case (Some(count), Some(error)) =>
        if error != 0 || fields[0] == "" || |fields| - 5 != count
           || exists i :: 5 <= i < |fields| && !GoodEntry(fields[i])
        then Ignored
        else Listing(fields[0], set i | 5 <= i < |fields| :: NameIn(fields[i]))
      case _ => Ignored
  }

  function ReadRoster(text: string): Report {
    ReadFields(Split(text, ';'))
  }

  /** The checking loop over the fields. */
  method ParseRoster(text: string) returns (r: Report)
    ensures r == ReadRoster(text)
  {
    var fields := Split(text, ';');
    if |fields| < 5 {
      return Ignored;
    }
    var count, error := PyInt(fields[3]), PyInt(fields[4]);
    if count.None? || error.None? {
      return Ignored;
    }
    if error.value != 0 || fields[0] == "" || |fields| - 5 != count.value {
      return Ignored;
    }
    var names: set<string> := {};
    for i := 5 to |fields|
      invariant forall j :: 5 <= j < i ==> GoodEntry(fields[j])
      invariant names == set j | 5 <= j < i :: NameIn(fields[j])
    {
      if !GoodEntry(fields[i]) {
        return Ignored;
      }
      names := names + {NameIn(fields[i])};
    }
    r := Listing(fields[0], names);
  }

  // ------------------------------------------------------------------ controller

  /** A bot's cached group: never reported (`None`), or a group id, empty after it left. */
  datatype Cached = Unknown | InGroup(id: string)

  datatype State = State(groups: map<string, Cached>, greeted: map<string, string>)

  /** What one event does to the greeting record: whose is reset, and who greets which group. */
  datatype Note = Note(reset: set<string>, greeting: Option<(string, string)>)

  datatype Effect = Effect(state: State, note: Note)

  function NoEffect(s: State): Effect {
    Effect(s, Note({}, None))
  }

  /** Bots cached in group `id` that its roster no longer lists. */
  function Departed(s: State, id: string, names: set<string>): set<string> {
    set b | b in s.groups && b !in names && s.groups[b] == InGroup(id)
  }

  function CacheAs(cached: Cached, id: string, listed: bool): Cached {
    if listed then InGroup(id) else if cached == InGroup(id) then InGroup("") else cached
  }

  function CacheRoster(groups: map<string, Cached>, id: string, names: set<string>): map<string, Cached> {
    map b | b in groups :: CacheAs(groups[b], id, b in names)
  }

  function OnRoster(s: State, name: string, id: string, names: set<string>, running: bool): Effect {
    var gone := Departed(s, id, names);
    var s' := State(CacheRoster(s.groups, id, names), s.greeted - gone);
    if name in names && running && !(name in s'.greeted && s'.greeted[name] == id) then
      Effect(s'.(greeted := s'.greeted[name := id]), Note(gone, Some((name, id))))
    else Effect(s', Note(gone, None))
  }

  function Forget(s: State, bot: string, cached: Cached): Effect {
    Effect(State(s.groups[bot := cached], s.greeted - {bot}), Note({bot}, None))
  }

  function OnDeparture(s: State, name: string, departed: string): Effect
    requires name in s.groups
  {
    if departed in s.groups && s.groups[name].InGroup? && s.groups[name].id != ""
       && s.groups[departed] == s.groups[name]
    then Forget(s, departed, InGroup(""))
    else NoEffect(s)
  }

  /** Who has left, if the line is a departure notice. */
  function NoticeOf(line: string): Option<string> {
    var fields := SplitAtMost(line, ':', 4);
    if DISBAND_PREFIX <= line && |fields| == 5 && fields[4] == LEFT then Some(fields[2]) else None
  }

  function Observe(s: State, name: string, line: string, running: bool): (e: Effect)
    requires name in s.groups
    ensures e.state.groups.Keys == s.groups.Keys
  {
    if ROSTER_PREFIX <= line then
      match ReadRoster(line[|ROSTER_PREFIX|..])
      case Ignored => NoEffect(s)
      case Listing(id, names) => OnRoster(s, name, id, names, running)
    else if LEAVE_PREFIX <= line then Forget(s, name, Unknown)
    else
      match NoticeOf(line)
      case Some(departed) => OnDeparture(s, name, departed)
      case None => NoEffect(s)
  }

  // ------------------------------------------------------------------ output lines

  /** Text output is read line by line; a carriage return ends a line as well. */
  function UnixBreaks(text: string): (r: string)
    ensures |r| == |text| && '\r' !in r
  {
    seq(|text|, i requires 0 <= i < |text| => if text[i] == '\r' then '\n' else text[i])
  }

  function OutputLines(text: string): seq<string> {
    Split(UnixBreaks(text), '\n')
  }

  predicate OneLine(s: string) {
    '\n' !in s && '\r' !in s
  }

  function ObserveLines(s: State, name: string, lines: seq<string>, running: bool): (s': State)
    requires name in s.groups
    ensures s'.groups.Keys == s.groups.Keys
    decreases |lines|
  {
    if lines == [] then s
    else ObserveLines(Observe(s, name, PyStrip(lines[0]), running).state, name, lines[1..], running)
  }

  /** What the controller has recorded once a bot has printed `text`. */
  function ObserveOutput(s: State, name: string, text: string, running: bool): State
    requires name in s.groups
  {
    ObserveLines(s, name, OutputLines(text), running)
  }

  class Controller {
    const names: seq<string>
    var groups: map<string, Cached>
    var greetedGroups: map<string, string>

    ghost predicate Valid()
      reads this
    {
      groups.Keys == set b | b in names
    }

    function Value(): State
      reads this
    {
      State(groups, greetedGroups)
    }

    constructor (names: seq<string>)
      ensures Valid() && this.names == names
      ensures Value() == State(map b | b in groups :: Unknown, map[])
    {
      this.names := names;
      groups := map b | b in names :: Unknown;
      greetedGroups := map[];
    }

    /** The part of `start` that touches the greeting record. */
    method Start(name: string)
      requires Valid()
      modifies this`greetedGroups
      ensures Valid() && Value() == old(Value()).(greeted := old(greetedGroups) - {name})
    {
      greetedGroups := greetedGroups - {name};
    }

    method StoreRoster(id: string, members: set<string>)
      requires Valid() && id != ""
      modifies this
      ensures Valid()
      ensures groups == CacheRoster(old(groups), id, members)
      ensures greetedGroups == old(greetedGroups) - Departed(old(Value()), id, members)
    {
      ghost var was := Value();
      ghost var seen: set<string> := {};
      for k := 0 to |names|
        invariant seen == set b | b in names[..k]
        invariant groups.Keys == was.groups.Keys
        invariant forall b :: b in groups ==>
          groups[b] == if b in seen then CacheAs(was.groups[b], id, b in members) else was.groups[b]
        invariant greetedGroups == was.greeted - (Departed(was, id, members) * seen)
      {
        var bot := names[k];
        assert bot in groups;
        if bot in members {
          groups := groups[bot := InGroup(id)];
        } else if groups[bot] == InGroup(id) {
          groups := groups[bot := InGroup("")];
          greetedGroups := greetedGroups - {bot};
        }
        assert names[..k + 1] == names[..k] + [bot];
        seen := seen + {bot};
      }
      assert names[..|names|] == names;
      assert Departed(was, id, members) * seen == Departed(was, id, members);
    }

    method ObserveGroup(name: string, line: string, running: bool) returns (greeting: Option<(string, string)>)
      requires Valid() && name in names
      modifies this
      ensures Valid()
      ensures var e := Observe(old(Value()), name, line, running);
        Value() == e.state && greeting == e.note.greeting
    {
      greeting := None;
      if ROSTER_PREFIX <= line {
        var report := ParseRoster(line[|ROSTER_PREFIX|..]);
        if report.Ignored? {
          return;
        }
        StoreRoster(report.id, report.names);
        if name in report.names && running && !(name in greetedGroups && greetedGroups[name] == report.id) {
          greetedGroups := greetedGroups[name := report.id];
          greeting := Some((name, report.id));
        }
      } else if LEAVE_PREFIX <= line {
        groups := groups[name := Unknown];
        greetedGroups := greetedGroups - {name};
      } else if DISBAND_PREFIX <= line {
        var fields := SplitAtMost(line, ':', 4);
        if |fields| == 5 && fields[4] == LEFT {
          var departed := fields[2];
          if departed in groups && groups[name].InGroup? && groups[name].id != "" && groups[departed] == groups[name] {
            groups := groups[departed := InGroup("")];
            greetedGroups := greetedGroups - {departed};
          }
        }
      }
    }

    /** The loop that reads a bot's output line by line. */
    method Collect(name: string, output: string, running: bool)
      requires Valid() && name in names
      modifies this
      ensures Valid()
      ensures Value() == ObserveOutput(old(Value()), name, output, running)
    {
      var lines := OutputLines(output);
      for k := 0 to |lines|
        invariant Valid()
        invariant ObserveLines(Value(), name, lines[k..], running) == ObserveOutput(old(Value()), name, output, running)
      {
        assert lines[k..][0] == lines[k] && lines[k..][1..] == lines[k + 1..];
        var _ := ObserveGroup(name, PyStrip(lines[k]), running);
      }
    }
  }

  // -------------------------------------------------- printer and observer agree

  lemma {:induction false} PyDigitsOfPrint(n: nat)
    ensures PyDigits(PrintNat(n)) == Some(n)
  {
    if n >= 10 {
      PyDigitsOfPrint(n / 10);
      var s := PrintNat(n);
      assert s[..|s| - 1] == PrintNat(n / 10);
      assert IsDigit(PrintNat(n / 10)[|s| - 2]);
    }
  }

  lemma PyIntOfPrint(n: int)
    ensures PyInt(PrintInt(n)) == Some(n)
  {
    var s := PrintInt(n);
    PrintIntEndsInDigit(n);
    PyDigitsOfPrint(if n < 0 then -n else n);
    if n < 0 {
      assert s[0] == '-' && s[1..] == PrintNat(-n);
    } else {
      assert IsDigit(PrintNat(n)[0]);
    }
    assert PyStrip(s) == s;
  }

  lemma EntryIsGood(m: GroupMember)
    ensures GoodEntry(Entry(m)) && NameIn(Entry(m)) == m.name
  {
    EntryShape(m);
    assert FindLast(Entry(m), ',') == |m.name|;
  }

  function NamesOf(ms: seq<GroupMember>): set<string> {
    set i | 0 <= i < |ms| :: ms[i].name
  }

  lemma PrintedNames(info: GroupInfo)
    ensures forall i :: 5 <= i < |Fields(info)| ==> GoodEntry(Fields(info)[i])
    ensures (set i | 5 <= i < |Fields(info)| :: NameIn(Fields(info)[i])) == NamesOf(info.groupMembers)
  {
    var f, ms := Fields(info), info.groupMembers;
    forall i | 5 <= i < |f| ensures GoodEntry(f[i]) && NameIn(f[i]) == ms[i - 5].name {
      EntryIsGood(ms[i - 5]);
    }
    forall b | b in NamesOf(ms) ensures b in set i | 5 <= i < |f| :: NameIn(f[i]) {
      var i :| 0 <= i < |ms| && ms[i].name == b;
      assert NameIn(f[i + 5]) == b;
    }
  }

  predicate Announces(info: GroupInfo) {
    info.errorCode == 0 && info.groupId != "" && info.memberCount == |info.groupMembers|
  }

  /** What the observer makes of any printed record whose fields hold no ';'. */
  lemma PrintedRosterRead(info: GroupInfo)
    requires Separable(info)
    ensures ReadRoster(Wire(info)) == if Announces(info) then Listing(info.groupId, NamesOf(info.groupMembers)) else Ignored
  {
    FieldsFree(info);
    SplitJoin(Fields(info), ';');
    PyIntOfPrint(info.memberCount);
    PyIntOfPrint(info.errorCode);
    PrintedNames(info);
  }

  /** The line a bot prints when it receives the server's update for group `id`. */
  function UpdateLine(groups: Members, id: string): string {
    "Received:" + Server.GroupUpdateText(groups, id)
  }

  lemma PrefixPieces()
    ensures "Received:" + "GroupInfo" + ":" + "GroupAdmin" + ":" + "" + ":" == ROSTER_PREFIX
  {
  }

  lemma UpdateLineShape(groups: Members, id: string)
    ensures UpdateLine(groups, id) == ROSTER_PREFIX + Wire(InfoById(groups, id))
  {
    PrefixPieces();
    assert Server.GroupUpdateText(groups, id) == "GroupInfo" + ":" + "GroupAdmin" + ":" + "" + ":" + Wire(InfoById(groups, id));
  }

  lemma ObserveListing(s: State, name: string, text: string, running: bool)
    requires name in s.groups
    ensures Observe(s, name, ROSTER_PREFIX + text, running) ==
            match ReadRoster(text)
            case Ignored => NoEffect(s)
            case Listing(id, names) => OnRoster(s, name, id, names, running)
  {
    assert (ROSTER_PREFIX + text)[|ROSTER_PREFIX|..] == text;
  }

  lemma ListingIsCached(s: State, name: string, id: string, names: set<string>, running: bool, b: string)
    requires id != "" && b in s.groups
    ensures var s' := OnRoster(s, name, id, names, running).state;
            b in s'.groups && (s'.groups[b] == InGroup(id) <==> b in names)
  {
  }

  ghost predicate NoSemicolons(groups: Members) {
    forall m :: m in groups ==> ';' !in m.groupId && ';' !in m.name
  }

  lemma InfoSeparable(groups: Members, id: string)
    requires WellFormed(groups) && NoSemicolons(groups) && ';' !in id
    ensures Separable(InfoById(groups, id))
  {
    RosterContents(groups, id);
    LeaderIsFirst(groups, id);
    var roster := Roster(groups, id);
    assert forall i :: 0 <= i < |roster| ==> roster[i] in groups;
  }

  lemma StoredInGroup(groups: Members, id: string, b: string)
    requires UniqueNames(groups) && id != ""
    ensures b in NamesOf(Roster(groups, id)) <==> GroupOf(groups, b) == id
  {
    RosterContents(groups, id);
    var roster := Roster(groups, id);
    if b in NamesOf(roster) {
      var i :| 0 <= i < |roster| && roster[i].name == b;
      var k :| 0 <= k < |groups| && groups[k] == roster[i];
      IndexUnique(groups, k);
    }
    if GroupOf(groups, b) == id {
      var m := groups[IndexOf(groups, b)];
      assert m in roster;
      var i :| 0 <= i < |roster| && roster[i] == m;
      assert roster[i].name == b;
    }
  }

  lemma {:induction false} StripIdentity(s: string)
    requires s == "" || !(IsSpace(s[0]) || IsSpace(s[|s| - 1]))
    ensures PyStrip(s) == s
  {
  }

  /** A line without breaks is observed as it is. */
  lemma OneLineObserved(s: State, name: string, line: string, running: bool)
    requires name in s.groups && OneLine(line) && PyStrip(line) == line
    ensures ObserveOutput(s, name, line + "\n", running) == Observe(s, name, line, running).state
  {
    var s' := Observe(s, name, line, running).state;
    assert UnixBreaks(line + "\n") == line + ['\n'] + "";
    SplitHead(line, "", '\n');
    SplitWhole("", '\n');
    assert OutputLines(line + "\n") == [line] + [""];
    assert ([line] + [""])[1..] == [""] && [""][1..] == [];
    assert Observe(s', name, "", running) == NoEffect(s');
    assert ObserveLines(s', name, [""], running) == s';
  }

  /** The bots cached in group `id` are exactly those the container has in it. */
  ghost predicate Follows(s: State, groups: Members, id: string) {
    forall b :: b in s.groups ==> (s.groups[b] == InGroup(id) <==> GroupOf(groups, b) == id)
  }

  lemma ListingFollows(s: State, name: string, running: bool, groups: Members, id: string)
    requires name in s.groups
    requires WellFormed(groups) && NoSemicolons(groups) && ';' !in id && id != ""
    ensures Follows(Observe(s, name, UpdateLine(groups, id), running).state, groups, id)
  {
    var info := InfoById(groups, id);
    UpdateLineShape(groups, id);
    InfoSeparable(groups, id);
    PrintedRosterRead(info);
    ObserveListing(s, name, Wire(info), running);
    forall b | b in s.groups
      ensures var s' := OnRoster(s, name, id, NamesOf(info.groupMembers), running).state;
              b in s'.groups && (s'.groups[b] == InGroup(id) <==> GroupOf(groups, b) == id)
    {
      StoredInGroup(groups, id, b);
      ListingIsCached(s, name, id, NamesOf(info.groupMembers), running, b);
    }
  }

  ghost predicate OneLineNames(ms: Members) {
    forall m :: m in ms ==> OneLine(m.name)
  }

  lemma {:induction false} JoinFree(parts: seq<string>, separator: char, d: char)
    requires d != separator && AllFree(parts, d)
    ensures d !in Join(parts, separator)
  {
    if |parts| > 1 {
      JoinFree(parts[1..], separator, d);
      assert d !in parts[0] && d !in parts[0] + [separator];
      assert Join(parts, separator) == (parts[0] + [separator]) + Join(parts[1..], separator);
    }
  }

  lemma FieldsOneLine(info: GroupInfo)
    requires OneLine(info.groupId) && OneLine(info.leaderName) && OneLineNames(info.groupMembers)
    ensures AllFree(Fields(info), '\n') && AllFree(Fields(info), '\r')
  {
    PrintIntFree(info.memberCount, '\n');
    PrintIntFree(info.memberCount, '\r');
    PrintIntFree(info.errorCode, '\n');
    PrintIntFree(info.errorCode, '\r');
    var f := Fields(info);
    forall i | 0 <= i < |f| ensures OneLine(f[i]) {
      if i >= 5 {
        assert f[i] == Entry(info.groupMembers[i - 5]);
      }
    }
  }

  lemma WireEnd(info: GroupInfo)
    ensures var w := Wire(info); w != "" && !IsSpace(w[|w| - 1])
  {
    var f := Fields(info);
    LastField(info);
    JoinLast(f, ';');
    PrintIntEndsInDigit(info.errorCode);
    if info.groupMembers != [] {
      EntryShape(info.groupMembers[|info.groupMembers| - 1]);
    }
  }

  lemma Prefixed(p: string, w: string)
    requires OneLine(p) && p != "" && !IsSpace(p[0])
    requires OneLine(w) && w != "" && !IsSpace(w[|w| - 1])
    ensures OneLine(p + w) && PyStrip(p + w) == p + w
  {
    StripIdentity(p + w);
  }

  lemma PrefixIsPlain()
    ensures OneLine(ROSTER_PREFIX) && |ROSTER_PREFIX| > 0 && !IsSpace(ROSTER_PREFIX[0])
  {
  }

  lemma UpdateIsOneLine(groups: Members, id: string)
    requires WellFormed(groups) && OneLine(id) && OneLineNames(Roster(groups, id))
    ensures OneLine(UpdateLine(groups, id)) && PyStrip(UpdateLine(groups, id)) == UpdateLine(groups, id)
  {
    var info := InfoById(groups, id);
    LeaderIsFirst(groups, id);
    FieldsOneLine(info);
    JoinFree(Fields(info), ';', '\n');
    JoinFree(Fields(info), ';', '\r');
    UpdateLineShape(groups, id);
    WireEnd(info);
    PrefixIsPlain();
    Prefixed(ROSTER_PREFIX, Wire(info));
  }

  /** What the controller has recorded once a bot has printed the update of group `id`. */
  function AfterUpdate(s: State, name: string, running: bool, groups: Members, id: string): State
    requires name in s.groups
  {
    ObserveOutput(s, name, UpdateLine(groups, id) + "\n", running)
  }

  /** After any bot has printed the server's update for a group, the bots cached in that group
      are exactly those the container has in it; an update of an emptied group clears them all. */
  lemma CacheMatchesContainer(s: State, name: string, running: bool, groups: Members, id: string)
    requires name in s.groups && WellFormed(groups) && NoSemicolons(groups)
    requires id != "" && ';' !in id && OneLine(id) && OneLineNames(Roster(groups, id))
    ensures Follows(AfterUpdate(s, name, running, groups, id), groups, id)
  {
    UpdateIsOneLine(groups, id);
    OneLineObserved(s, name, UpdateLine(groups, id), running);
    ListingFollows(s, name, running, groups, id);
  }

  // ------------------------------------------------------------ departure notices

  function DeparturePieces(departed: string): seq<string> {
    ["Received", "GroupDisbandInfo", departed, "", LEFT]
  }

  /** The line a bot prints when it receives the server's notice that `departed` has left. */
  function DepartureLine(departed: string): string {
    "Received:" + Envelope.Serialize(Envelope.FDaraChatMsg(Envelope.EChatCmdType.GroupDisbandInfo, departed, "", LEFT))
  }

  lemma JoinCons(p: string, tail: seq<string>, d: char)
    requires tail != []
    ensures Join([p] + tail, d) == p + [d] + Join(tail, d)
  {
    assert ([p] + tail)[1..] == tail;
  }

  lemma JoinFive(a: string, b: string, c: string, e: string, f: string, d: char)
    ensures Join([a, b, c, e, f], d) == a + [d] + (b + [d] + (c + [d] + (e + [d] + f)))
  {
    JoinCons(e, [f], d);
    JoinCons(c, [e, f], d);
    JoinCons(b, [c, e, f], d);
    JoinCons(a, [b, c, e, f], d);
    assert [e] + [f] == [e, f] && [c] + [e, f] == [c, e, f] && [b] + [c, e, f] == [b, c, e, f];
    assert [a] + [b, c, e, f] == [a, b, c, e, f];
  }

  lemma DepartureLineIsJoin(departed: string)
    ensures DepartureLine(departed) == Join(DeparturePieces(departed), ':')
  {
    JoinFive("Received", "GroupDisbandInfo", departed, "", LEFT, ':');
    assert "Received" + [':'] == "Received:";
    assert Envelope.Serialize(Envelope.FDaraChatMsg(Envelope.EChatCmdType.GroupDisbandInfo, departed, "", LEFT))
        == "GroupDisbandInfo" + ":" + departed + ":" + "" + ":" + LEFT;
  }

  lemma DeparturePrefixes(rest: string)
    ensures var line := "Received" + [':'] + ("GroupDisbandInfo" + [':'] + rest);
            !(ROSTER_PREFIX <= line) && !(LEAVE_PREFIX <= line) && DISBAND_PREFIX <= line
  {
    var line := "Received" + [':'] + ("GroupDisbandInfo" + [':'] + rest);
    assert "Received" + [':'] + ("GroupDisbandInfo" + [':']) == DISBAND_PREFIX;
    assert line == DISBAND_PREFIX + rest;
    assert line[14] == 'D' && ROSTER_PREFIX[14] == 'I';
    assert line[0] == 'R';
  }

  lemma {:induction false} PieceCounts(parts: seq<string>, d: char, i: nat)
    requires i < |parts|
    ensures CountAll(parts, d) >= Count(parts[i], d)
  {
    if i > 0 {
      PieceCounts(parts[1..], d, i - 1);
    }
  }

  lemma JoinHasSeparator(parts: seq<string>, d: char)
    requires |parts| >= 2
    ensures d in Join(parts, d)
  {
    assert Join(parts, d)[|parts[0]|] == d;
  }

  /** A line with at least five separators has no fifth piece free of them. */
  lemma TooManyPieces(line: string, d: char)
    requires Count(line, d) >= 5
    ensures var fields := SplitAtMost(line, d, 4); |fields| == 5 && d in fields[4]
  {
    SplitCount(line, d);
    JoinHasSeparator(Split(line, d)[4..], d);
  }

  lemma DepartureIgnored(s: State, name: string, departed: string, running: bool)
    requires name in s.groups && ':' in departed
    ensures Observe(s, name, DepartureLine(departed), running) == NoEffect(s)
  {
    var parts := DeparturePieces(departed);
    DepartureLineIsJoin(departed);
    JoinFive("Received", "GroupDisbandInfo", departed, "", LEFT, ':');
    DeparturePrefixes(departed + [':'] + ("" + [':'] + LEFT));
    CountJoin(parts, ':');
    PieceCounts(parts, ':', 2);
    if Count(departed, ':') == 0 {
      CountZero(departed, ':');
    }
    TooManyPieces(DepartureLine(departed), ':');
  }

  lemma DepartureNamed(s: State, name: string, departed: string, running: bool)
    requires name in s.groups && ':' !in departed
    ensures Observe(s, name, DepartureLine(departed), running) == OnDeparture(s, name, departed)
  {
    var parts := DeparturePieces(departed);
    DepartureLineIsJoin(departed);
    JoinFive("Received", "GroupDisbandInfo", departed, "", LEFT, ':');
    DeparturePrefixes(departed + [':'] + ("" + [':'] + LEFT));
    SplitJoin(parts, ':');
  }

  /** The notice makes the observer treat the named bot as departed, and no other; a name with
      a colon shifts the pieces, and the notice is ignored. */
  lemma DepartureObserved(s: State, name: string, departed: string, running: bool)
    requires name in s.groups
    ensures Observe(s, name, DepartureLine(departed), running) ==
            if ':' in departed then NoEffect(s) else OnDeparture(s, name, departed)
  {
    if ':' in departed {
      DepartureIgnored(s, name, departed, running);
    } else {
      DepartureNamed(s, name, departed, running);
    }
  }

  lemma DepartureOneLine(departed: string)
    requires OneLine(departed)
    ensures OneLine(DepartureLine(departed))
  {
    DepartureLineIsJoin(departed);
    DeparturePiecesFree(departed, '\n');
    DeparturePiecesFree(departed, '\r');
    JoinFree(DeparturePieces(departed), ':', '\n');
    JoinFree(DeparturePieces(departed), ':', '\r');
  }

  lemma DeparturePiecesFree(departed: string, c: char)
    requires c !in departed && (c == '\n' || c == '\r')
    ensures AllFree(DeparturePieces(departed), c)
  {
  }

  lemma DepartureStripped(departed: string)
    ensures PyStrip(DepartureLine(departed)) == DepartureLine(departed)
  {
    var middle := "GroupDisbandInfo" + [':'] + (departed + [':'] + ("" + [':']));
    DepartureLineIsJoin(departed);
    JoinFive("Received", "GroupDisbandInfo", departed, "", LEFT, ':');
    Surrounded("Received" + [':'], middle, LEFT);
    assert DepartureLine(departed) == "Received" + [':'] + (middle + LEFT);
  }

  lemma Surrounded(p: string, x: string, q: string)
    requires p != "" && q != "" && !IsSpace(p[0]) && !IsSpace(q[|q| - 1])
    ensures PyStrip(p + (x + q)) == p + (x + q)
  {
    StripIdentity(p + (x + q));
  }

  /** The notice as the bot prints it, for a name without line breaks. */
  lemma DeparturePrinted(s: State, name: string, departed: string, running: bool)
    requires name in s.groups && OneLine(departed)
    ensures ObserveOutput(s, name, DepartureLine(departed) + "\n", running) ==
            if ':' in departed then s else OnDeparture(s, name, departed).state
  {
    DepartureOneLine(departed);
    DepartureStripped(departed);
    OneLineObserved(s, name, DepartureLine(departed), running);
    DepartureObserved(s, name, departed, running);
  }

  // -------------------------------------------------------------------- greetings

  datatype Event = Started(name: string) | Printed(name: string, line: string, running: bool)

  function Apply(s: State, e: Event): Effect
    requires e.name in s.groups
  {
    match e
    case Started(name) => Effect(s.(greeted := s.greeted - {name}), Note({name}, None))
    case Printed(name, line, running) => Observe(s, name, line, running)
  }

  datatype Run = Run(state: State, history: seq<Note>)

  ghost predicate KnownBots(bots: set<string>, events: seq<Event>) {
    forall i :: 0 <= i < |events| ==> events[i].name in bots
  }

  function Play(bots: set<string>, events: seq<Event>): (r: Run)
    requires forall i :: 0 <= i < |events| ==> events[i].name in bots
    ensures r.state.groups.Keys == bots
    ensures |r.history| == |events|
  {
    if events == [] then Run(State(map b | b in bots :: Unknown, map[]), [])
    else
      var r := Play(bots, Front(events));
      var e := Apply(r.state, Last(events));
      Run(e.state, r.history + [e.note])
  }

  /** The group a bot greeted last, unless its record was reset since. */
  function LastGreeting(history: seq<Note>, bot: string): Option<string> {
    if history == [] then None
    else
      var n := Last(history);
      if n.greeting.Some? && n.greeting.value.0 == bot then Some(n.greeting.value.1)
      else if bot in n.reset then None
      else LastGreeting(Front(history), bot)
  }

  function Recorded(s: State, bot: string): Option<string> {
    if bot in s.greeted then Some(s.greeted[bot]) else None
  }

  /** One event: the record follows the note, and a greeting is never for the recorded group. */
  lemma NoteIsFaithful(s: State, e: Event, bot: string)
    requires e.name in s.groups
    ensures var (s', n) := (Apply(s, e).state, Apply(s, e).note);
      && Recorded(s', bot) == (if n.greeting.Some? && n.greeting.value.0 == bot then Some(n.greeting.value.1)
                               else if bot in n.reset then None else Recorded(s, bot))
      && (n.greeting.Some? && n.greeting.value.0 == bot ==> Recorded(s, bot) != Some(n.greeting.value.1) && bot !in n.reset)
  {
  }

  lemma {:induction false} RecordIsLastGreeting(bots: set<string>, events: seq<Event>, bot: string)
    requires KnownBots(bots, events)
    ensures Recorded(Play(bots, events).state, bot) == LastGreeting(Play(bots, events).history, bot)
  {
    if events != [] {
      RecordIsLastGreeting(bots, Front(events), bot);
      NoteIsFaithful(Play(bots, Front(events)).state, Last(events), bot);
    }
  }

  predicate Greets(n: Note, bot: string, id: string) {
    n.greeting == Some((bot, id))
  }

  predicate Interrupts(n: Note, bot: string, id: string) {
    bot in n.reset || (n.greeting.Some? && n.greeting.value.0 == bot && n.greeting.value.1 != id)
  }

  /** Between positions `i` and `j` the bot's record was reset or it greeted another group. */
  ghost predicate Interrupted(history: seq<Note>, i: nat, j: nat, bot: string, id: string)
    requires j <= |history|
  {
    exists k :: i < k < j && Interrupts(history[k], bot, id)
  }

  lemma {:induction false} GreetingBefore(history: seq<Note>, bot: string, id: string, i: nat)
    requires i < |history| && Greets(history[i], bot, id) && !Interrupts(history[i], bot, id)
    requires LastGreeting(history, bot) != Some(id)
    ensures Interrupted(history, i, |history|, bot, id)
  {
    var last := |history| - 1;
    if Interrupts(history[last], bot, id) {
      assert i != last;
    } else {
      GreetingBefore(Front(history), bot, id, i);
      var k :| i < k < last && Interrupts(Front(history)[k], bot, id);
      assert Interrupts(history[k], bot, id);
    }
  }

  lemma {:induction false} PlayPrefix(bots: set<string>, events: seq<Event>, n: nat)
    requires KnownBots(bots, events) && n <= |events|
    ensures Play(bots, events[..n]).history == Play(bots, events).history[..n]
  {
    if n < |events| {
      PlayPrefix(bots, Front(events), n);
      assert Front(events)[..n] == events[..n];
    } else {
      assert events[..n] == events;
    }
  }

  /** A greeting is never for the group greeted last. */
  lemma GreetingIsNew(bots: set<string>, events: seq<Event>, bot: string, id: string)
    requires KnownBots(bots, events) && events != []
    requires var h := Play(bots, events).history; Greets(Last(h), bot, id)
    ensures var h := Play(bots, events).history; LastGreeting(Front(h), bot) != Some(id) && !Interrupts(Last(h), bot, id)
  {
    RecordIsLastGreeting(bots, Front(events), bot);
    NoteIsFaithful(Play(bots, Front(events)).state, Last(events), bot);
  }

  lemma GreetingIsNewAt(bots: set<string>, events: seq<Event>, j: nat, bot: string, id: string)
    requires KnownBots(bots, events) && j < |events| && Greets(Play(bots, events).history[j], bot, id)
    ensures var h := Play(bots, events).history; LastGreeting(h[..j], bot) != Some(id) && !Interrupts(h[j], bot, id)
  {
    var h, upto := Play(bots, events).history, events[..j + 1];
    PlayPrefix(bots, events, j + 1);
    assert Front(h[..j + 1]) == h[..j] && Last(h[..j + 1]) == h[j];
    GreetingIsNew(bots, upto, bot, id);
  }

  /** In every run a bot that greets the same group again has greeted another in between, or had
      its record reset. */
  lemma NoRepeatedGreeting(bots: set<string>, events: seq<Event>, i: nat, j: nat, bot: string, id: string)
    requires KnownBots(bots, events) && i < j < |events|
    requires var h := Play(bots, events).history; Greets(h[i], bot, id) && Greets(h[j], bot, id)
    ensures Interrupted(Play(bots, events).history, i, j, bot, id)
  {
    var h := Play(bots, events).history;
    GreetingIsNewAt(bots, events, i, bot, id);
    GreetingIsNewAt(bots, events, j, bot, id);
    assert h[..j][i] == h[i];
    GreetingBefore(h[..j], bot, id, i);
    var k :| i < k < j && Interrupts(h[..j][k], bot, id);
    assert h[..j][k] == h[k];
  }

  /** The line lists `bot` in group `id`. */
  predicate ListsIn(line: string, bot: string, id: string) {
    ROSTER_PREFIX <= line
    && match ReadRoster(line[|ROSTER_PREFIX|..])
       case Ignored => false
       case Listing(listed, names) => listed == id && bot in names
  }

  /** The occasion to greet: a running bot prints a line that lists it in the group. */
  predicate SeesItself(e: Event, bot: string, id: string) {
    e.Printed? && e.name == bot && e.running && ListsIn(e.line, bot, id)
  }

  /** One event: a greeting is due exactly on such an occasion, unless the group is on record. */
  lemma GreetingDue(s: State, e: Event, bot: string, id: string)
    requires e.name in s.groups
    ensures Greets(Apply(s, e).note, bot, id) <==> SeesItself(e, bot, id) && Recorded(s, bot) != Some(id)
  {
  }

  lemma PlayedAt(bots: set<string>, events: seq<Event>, j: nat)
    requires KnownBots(bots, events) && j < |events|
    ensures Play(bots, events).history[j] == Apply(Play(bots, events[..j]).state, events[j]).note
  {
    PlayPrefix(bots, events, j + 1);
    var h := Play(bots, events).history;
    assert h[..j + 1][j] == h[j];
    assert Front(events[..j + 1]) == events[..j] && Last(events[..j + 1]) == events[j];
  }

  /** In every run: a bot greets a group exactly when, while it runs, it prints a line that lists it
      there, and the group is not the one it greeted last since its record was reset. */
  lemma GreetsExactly(bots: set<string>, events: seq<Event>, j: nat, bot: string, id: string)
    requires KnownBots(bots, events) && j < |events|
    ensures var h := Play(bots, events).history;
      Greets(h[j], bot, id) <==> SeesItself(events[j], bot, id) && LastGreeting(h[..j], bot) != Some(id)
  {
    PlayedAt(bots, events, j);
    PlayPrefix(bots, events, j);
    RecordIsLastGreeting(bots, events[..j], bot);
    GreetingDue(Play(bots, events[..j]).state, events[j], bot, id);
  }

  /** The server's update of a group lists exactly the members of the group. */
  lemma UpdateLists(groups: Members, id: string, bot: string, seen: string)
    requires WellFormed(groups) && NoSemicolons(groups) && ';' !in id && id != ""
    ensures ListsIn(UpdateLine(groups, id), bot, seen) <==> seen == id && GroupOf(groups, bot) == id
  {
    var info := InfoById(groups, id);
    UpdateLineShape(groups, id);
    InfoSeparable(groups, id);
    PrintedRosterRead(info);
    assert (ROSTER_PREFIX + Wire(info))[|ROSTER_PREFIX|..] == Wire(info);
    StoredInGroup(groups, id, bot);
  }

  /** In every run: a running bot that prints the server's update of a group greets that group exactly
      when it is a member and has not just greeted it. */
  lemma UpdateGreeted(bots: set<string>, events: seq<Event>, j: nat, bot: string, groups: Members, id: string)
    requires KnownBots(bots, events) && j < |events| && events[j] == Printed(bot, UpdateLine(groups, id), true)
    requires WellFormed(groups) && NoSemicolons(groups) && ';' !in id && id != ""
    ensures var h := Play(bots, events).history;
      Greets(h[j], bot, id) <==> GroupOf(groups, bot) == id && LastGreeting(h[..j], bot) != Some(id)
  {
    GreetsExactly(bots, events, j, bot, id);
    UpdateLists(groups, id, bot, id);
  }
}
