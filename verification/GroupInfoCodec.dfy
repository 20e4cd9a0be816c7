/**
 The `GroupInfo` wire form: `id;leader;flag;count;error;name,online;...`,
 its printer, its C++ parser, and exactly when the parser undoes the printer.
 */
module GroupInfoCodec {
  import opened Text
  import opened Groups

  // ------------------------------------------------------------------ printing

  function Bit(b: bool): string {
    if b then "1" else "0"
  }

  function Entry(m: GroupMember): string {
    m.name + "," + Bit(m.isOnline)
  }

  function Entries(ms: seq<GroupMember>): (r: seq<string>)
    ensures |r| == |ms| && forall i :: 0 <= i < |ms| ==> r[i] == Entry(ms[i])
  {
    seq(|ms|, i requires 0 <= i < |ms| => Entry(ms[i]))
  }

  function Fields(info: GroupInfo): (r: seq<string>)
    ensures |r| == 5 + |info.groupMembers|
  {
    [info.groupId, info.leaderName, Bit(info.isLeader), PrintInt(info.memberCount), PrintInt(info.errorCode)]
    + Entries(info.groupMembers)
  }

  /** The text `SerializeToSend` builds. */
  function Wire(info: GroupInfo): string {
    Join(Fields(info), ';')
  }

  lemma {:induction false} JoinSnoc(parts: seq<string>, x: string, d: char)
    requires parts != []
    ensures Join(parts + [x], d) == Join(parts, d) + [d] + x
  {
    if |parts| > 1 {
      assert (parts + [x])[1..] == parts[1..] + [x];
      JoinSnoc(parts[1..], x, d);
    } else {
      assert (parts + [x])[1..] == [x];
    }
  }

  method SerializeToSend(info: GroupInfo) returns (serialized: string)
    ensures serialized == Wire(info)
  {
    serialized := info.groupId + ";" + info.leaderName + ";" + Bit(info.isLeader) + ";" +
                  PrintInt(info.memberCount) + ";" + PrintInt(info.errorCode);
    HeaderIsJoin(info);
    for k := 0 to |info.groupMembers|
      invariant serialized == Join(Fields(info)[..5 + k], ';')
    {
      OneMoreEntry(info, k);
      var entry := info.groupMembers[k].name + "," + (if info.groupMembers[k].isOnline then "1" else "0");
      serialized := serialized + ";" + entry;
    }
    assert Fields(info)[..5 + |info.groupMembers|] == Fields(info);
  }

  lemma OneMoreEntry(info: GroupInfo, k: nat)
    requires k < |info.groupMembers|
    ensures Join(Fields(info)[..5 + k + 1], ';') == Join(Fields(info)[..5 + k], ';') + ";" + Entry(info.groupMembers[k])
  {
    JoinSnoc(Fields(info)[..5 + k], Entry(info.groupMembers[k]), ';');
    assert Fields(info)[..5 + k + 1] == Fields(info)[..5 + k] + [Entry(info.groupMembers[k])];
  }

  lemma HeaderIsJoin(info: GroupInfo)
    ensures info.groupId + ";" + info.leaderName + ";" + Bit(info.isLeader) + ";" +
            PrintInt(info.memberCount) + ";" + PrintInt(info.errorCode) == Join(Fields(info)[..5], ';')
  {
    var f := Fields(info);
    assert f[..1] == [info.groupId];
    assert f[..2] == f[..1] + [info.leaderName];
    JoinSnoc(f[..1], info.leaderName, ';');
    assert f[..3] == f[..2] + [Bit(info.isLeader)];
    JoinSnoc(f[..2], Bit(info.isLeader), ';');
    assert f[..4] == f[..3] + [PrintInt(info.memberCount)];
    JoinSnoc(f[..3], PrintInt(info.memberCount), ';');
    assert f[..5] == f[..4] + [PrintInt(info.errorCode)];
    JoinSnoc(f[..4], PrintInt(info.errorCode), ';');
  }

  // ------------------------------------------------------------------- parsing

  datatype StoiResult = Value(n: int32) | InvalidArgument | OutOfRange

  function SkipSpace(s: string): string {
    if s != "" && IsSpace(s[0]) then SkipSpace(s[1..]) else s
  }

  function Negate(negative: bool, n: int): int {
    if negative then -n else n
  }

  /** `std::stoi`: white space, optional sign, the longest run of digits; the rest is ignored. */
  function Stoi(s: string): StoiResult {
    var t := SkipSpace(s);
    var digits := if t != "" && (t[0] == '-' || t[0] == '+') then t[1..] else t;
    var k := DigitRun(digits);
    var n := Negate(t != "" && t[0] == '-', ReadDigits(digits[..k]));
    if k == 0 then InvalidArgument
    else if INT_MIN <= n <= INT_MAX then Value(n)
    else OutOfRange
  }

  /** What `Deserialize` does: an exception from `stoi`, or a record. */
  datatype Parsed = Thrown | Info(info: GroupInfo)

  function Bare(name: string, online: bool, now: int): GroupMember {
    GroupMember(name, false, online, "", "", "", now)
  }

  function ParseEntry(part: string, now: int): GroupMember {
    var sep := FindLast(part, ',');
    if sep >= 0 && (part[sep + 1..] == "0" || part[sep + 1..] == "1") then
      Bare(part[..sep], part[sep + 1..] == "1", now)
    else Bare(part, false, now)
  }

  function ParseEntries(parts: seq<string>, now: int): (r: seq<GroupMember>)
    ensures |r| == |parts| && forall i :: 0 <= i < |parts| ==> r[i] == ParseEntry(parts[i], now)
  {
    seq(|parts|, i requires 0 <= i < |parts| => ParseEntry(parts[i], now))
  }

  function Parse(msg: string, now: int): Parsed {
    var parts := Lines(msg, ';');
    if |parts| < 5 then Info(NO_INFO)
    else
      match (Stoi(parts[3]), Stoi(parts[4]))
      case (Value(count), Value(error)) =>
        Info(GroupInfo(parts[0], parts[1], parts[2] == "1", count, error, ParseEntries(parts[5..], now)))
      case _ => Thrown
  }

  method Deserialize(msg: string, now: int) returns (r: Parsed)
    ensures r == Parse(msg, now)
  {
    var parts := Lines(msg, ';');
    if |parts| < 5 {
      return Info(NO_INFO);
    }
    var count := Stoi(parts[3]);
    if !count.Value? {
      return Thrown;
    }
    var error := Stoi(parts[4]);
    if !error.Value? {
      return Thrown;
    }
    var members := DeserializeMembers(parts, now);
    r := Info(GroupInfo(parts[0], parts[1], parts[2] == "1", count.n, error.n, members));
  }

  method DeserializeEntry(part: string, now: int) returns (member: GroupMember)
    ensures member == ParseEntry(part, now)
  {
    var sep := FindLast(part, ',');
    if sep >= 0 && (part[sep + 1..] == "0" || part[sep + 1..] == "1") {
      member := Bare(part[..sep], part[sep + 1..] == "1", now);
    } else {
      member := Bare(part, false, now); // legacy protocol
    }
  }

  /** The member loop of `Deserialize`. */
  method DeserializeMembers(parts: seq<string>, now: int) returns (members: seq<GroupMember>)
    requires |parts| >= 5
    ensures members == ParseEntries(parts[5..], now)
  {
    members := [];
    for i := 5 to |parts|
      invariant members == ParseEntries(parts[5..i], now)
    {
      var member := DeserializeEntry(parts[i], now);
      assert parts[5..i + 1] == parts[5..i] + [parts[i]];
      members := members + [member];
    }
    assert parts[5..|parts|] == parts[5..];
  }

  // --------------------------------------------------------------- round trip

  lemma StoiOfPrint(n: int)
    requires INT_MIN <= n <= INT_MAX
    ensures Stoi(PrintInt(n)) == Value(n)
  {
    var m: nat := if n < 0 then -n else n;
    var digits := PrintNat(m);
    DigitRunAll(digits);
    DigitsRoundTrip(m);
    assert digits[..|digits|] == digits;
    assert IsDigit(digits[0]);
    assert n < 0 ==> PrintInt(n)[1..] == digits;
  }

  lemma EntryShape(m: GroupMember)
    ensures var e, n := Entry(m), |m.name|;
            |e| == n + 2 && e[n] == ',' && e[n + 1] == (if m.isOnline then '1' else '0')
            && e[..n] == m.name && e[n + 1..] == Bit(m.isOnline)
  {
    assert Entry(m) == m.name + ("," + Bit(m.isOnline));
  }

  lemma EntryRoundTrip(m: GroupMember, now: int)
    ensures ParseEntry(Entry(m), now) == Bare(m.name, m.isOnline, now)
  {
    EntryShape(m);
    assert FindLast(Entry(m), ',') == |m.name|;
  }

  function Delivered(info: GroupInfo, now: int): (r: GroupInfo)
    ensures |r.groupMembers| == |info.groupMembers|
  {
    info.(groupMembers := seq(|info.groupMembers|, i requires 0 <= i < |info.groupMembers| =>
      Bare(info.groupMembers[i].name, info.groupMembers[i].isOnline, now)))
  }

  ghost predicate Separable(info: GroupInfo) {
    ';' !in info.groupId && ';' !in info.leaderName &&
    forall i :: 0 <= i < |info.groupMembers| ==> ';' !in info.groupMembers[i].name
  }

  ghost predicate InRange(info: GroupInfo) {
    INT_MIN <= info.memberCount <= INT_MAX && INT_MIN <= info.errorCode <= INT_MAX
  }

  lemma EntryFree(m: GroupMember)
    ensures ';' in Entry(m) <==> ';' in m.name
  {
    assert Entry(m) == m.name + ("," + Bit(m.isOnline));
    assert ';' !in "," + Bit(m.isOnline);
  }

  lemma FieldsFree(info: GroupInfo)
    ensures AllFree(Fields(info), ';') <==> Separable(info)
  {
    var f := Fields(info);
    PrintIntFree(info.memberCount, ';');
    PrintIntFree(info.errorCode, ';');
    assert f[0] == info.groupId && f[1] == info.leaderName && f[2] == Bit(info.isLeader);
    assert f[3] == PrintInt(info.memberCount) && f[4] == PrintInt(info.errorCode);
    forall i | 0 <= i < |info.groupMembers|
      ensures ';' in f[5 + i] <==> ';' in info.groupMembers[i].name
    {
      EntryFree(info.groupMembers[i]);
    }
    assert forall j :: 5 <= j < |f| ==> f[j] == f[5 + (j - 5)];
  }

  lemma {:induction false} JoinLast(parts: seq<string>, d: char)
    requires parts != [] && parts[|parts| - 1] != ""
    ensures Join(parts, d) != ""
    ensures Join(parts, d)[|Join(parts, d)| - 1] == parts[|parts| - 1][|parts[|parts| - 1]| - 1]
  {
    if |parts| > 1 {
      JoinLast(parts[1..], d);
    }
  }

  lemma LastField(info: GroupInfo)
    ensures var f := Fields(info); var last := f[|f| - 1]; last != "" && last[|last| - 1] != ';'
  {
    PrintIntEndsInDigit(info.errorCode);
    if info.groupMembers != [] {
      EntryShape(info.groupMembers[|info.groupMembers| - 1]);
    }
  }

  /** The wire form never ends in the separator, so `getline` sees every piece. */
  lemma AllPiecesSeen(info: GroupInfo)
    ensures Lines(Wire(info), ';') == Split(Wire(info), ';')
  {
    LastField(info);
    JoinLast(Fields(info), ';');
    SplitLast(Wire(info), ';', 0);
  }

  lemma EntriesRoundTrip(info: GroupInfo, now: int)
    ensures ParseEntries(Fields(info)[5..], now) == Delivered(info, now).groupMembers
  {
    var f := Fields(info);
    forall i | 0 <= i < |info.groupMembers|
      ensures ParseEntries(f[5..], now)[i] == Delivered(info, now).groupMembers[i]
    {
      EntryRoundTrip(info.groupMembers[i], now);
      assert f[5..][i] == Entry(info.groupMembers[i]);
    }
  }

  lemma ParseIs(msg: string, parts: seq<string>, count: int32, error: int32, now: int)
    requires Lines(msg, ';') == parts && |parts| >= 5
    requires Stoi(parts[3]) == Value(count) && Stoi(parts[4]) == Value(error)
    ensures Parse(msg, now) ==
            Info(GroupInfo(parts[0], parts[1], parts[2] == "1", count, error, ParseEntries(parts[5..], now)))
  {
  }

  lemma RoundTripSeparable(info: GroupInfo, now: int)
    requires InRange(info) && Separable(info)
    ensures Parse(Wire(info), now) == Info(Delivered(info, now))
  {
    var f := Fields(info);
    FieldsFree(info);
    SplitJoin(f, ';');
    AllPiecesSeen(info);
    StoiOfPrint(info.memberCount);
    StoiOfPrint(info.errorCode);
    EntriesRoundTrip(info, now);
    ParseIs(Wire(info), f, info.memberCount, info.errorCode, now);
    assert f[2] == Bit(info.isLeader);
  }

  function CountAll(parts: seq<string>, d: char): nat {
    if parts == [] then 0 else Count(parts[0], d) + CountAll(parts[1..], d)
  }

  lemma {:induction false} CountJoin(parts: seq<string>, d: char)
    requires parts != []
    ensures Count(Join(parts, d), d) == |parts| - 1 + CountAll(parts, d)
  {
    if |parts| > 1 {
      CountJoin(parts[1..], d);
      var rest := [d] + Join(parts[1..], d);
      assert Join(parts, d) == parts[0] + rest;
      CountAppend(parts[0], rest, d);
      CountShift([d], Join(parts[1..], d), d, 0);
    } else {
      assert CountAll(parts[1..], d) == 0;
    }
  }

  lemma {:induction false} CountAllZero(parts: seq<string>, d: char)
    requires CountAll(parts, d) == 0
    ensures AllFree(parts, d)
  {
    if parts != [] {
      CountZero(parts[0], d);
      CountAllZero(parts[1..], d);
      assert forall i :: 1 <= i < |parts| ==> parts[i] == parts[1..][i - 1];
    }
  }

  /** The parser recovers id, leader, flag, both integers and every name and online bit exactly
      when no ';' occurs in the id or in a name. */
  lemma RoundTrip(info: GroupInfo, now: int)
    requires InRange(info)
    ensures Parse(Wire(info), now) == Info(Delivered(info, now)) <==> Separable(info)
  {
    if Separable(info) {
      RoundTripSeparable(info, now);
    }
    if Parse(Wire(info), now) == Info(Delivered(info, now)) {
      AllPiecesSeen(info);
      SplitCount(Wire(info), ';');
      CountJoin(Fields(info), ';');
      var parts := Lines(Wire(info), ';');
      assert |parts| >= 5;
      CountAllZero(Fields(info), ';');
      FieldsFree(info);
    }
  }

  /** The wire form of a group of two, written out. */
  lemma WireOfTwo(id: string, a: string, b: string, one: GroupMember, two: GroupMember)
    requires one.name == a && one.isOnline && two.name == b && !two.isOnline
    ensures Wire(GroupInfo(id, a, true, 2, 0, [one, two])) == id + ";" + a + ";1;2;0;" + a + ",1;" + b + ",0"
  {
    var info := GroupInfo(id, a, true, 2, 0, [one, two]);
    var f := Fields(info);
    assert PrintInt(2) == "2" && PrintInt(0) == "0";
    HeaderIsJoin(info);
    OneMoreEntry(info, 0);
    OneMoreEntry(info, 1);
    assert f[..7] == f;
  }
}
