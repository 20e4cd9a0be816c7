/**
 The chat envelope `Type:Sender:Recipient:Message`: printing, parsing, and the
 exact conditions under which one undoes the other.
 */
module ChatEnvelope {
  import opened Text

  datatype EChatCmdType =
    | Tell | Group | Raid | Zone | Channel
    | GroupInvite | GroupJoin | GroupJoinInfo | GroupDisband | GroupDisbandInfo
    | GroupKick | GroupKickInfo | GroupInfo | Alive | AliveInfo
    | AdminStatus | AdminGroups | AdminZones | AdminChannels | AdminInfo | AdminError
    | None

  datatype FDaraChatMsg = FDaraChatMsg(Type: EChatCmdType, Sender: string, Recipient: string, Message: string)

  datatype Parsed = Message(msg: FDaraChatMsg) | Rejected(error: string)

  function ChatCmdTypeToString(t: EChatCmdType): string {
    match t
    case Tell => "Tell"
    case Group => "Group"
    case Raid => "Raid"
    case Zone => "Zone"
    case Channel => "Channel"
    case GroupInvite => "GroupInvite"
    case GroupJoin => "GroupJoin"
    case GroupJoinInfo => "GroupJoinInfo"
    case GroupDisband => "GroupDisband"
    case GroupDisbandInfo => "GroupDisbandInfo"
    case GroupKick => "GroupKick"
    case GroupKickInfo => "GroupKickInfo"
    case GroupInfo => "GroupInfo"
    case Alive => "Alive"
    case AliveInfo => "AliveInfo"
    case AdminStatus => "AdminStatus"
    case AdminGroups => "AdminGroups"
    case AdminZones => "AdminZones"
    case AdminChannels => "AdminChannels"
    case AdminInfo => "AdminInfo"
    case AdminError => "AdminError"
    case None => "None"
  }

  const NO_ENVELOPE := "Expected Type:Sender:Recipient:Message"
  const UNKNOWN_TYPE := "Unknown or inactive message type"

  const FIRST: nat := 0
  const TYPES := 21

  /** The comparisons of `ChatCmdTypeFromString`, in their order. */
  function TypeAt(k: nat): EChatCmdType {
    if k == 0 then Tell
    else if k == 1 then Group
    else if k == 2 then Raid
    else if k == 3 then Zone
    else if k == 4 then Channel
    else if k == 5 then GroupInvite
    else if k == 6 then GroupJoin
    else if k == 7 then GroupJoinInfo
    else if k == 8 then GroupDisband
    else if k == 9 then GroupDisbandInfo
    else if k == 10 then GroupKick
    else if k == 11 then GroupKickInfo
    else if k == 12 then GroupInfo
    else if k == 13 then Alive
    else if k == 14 then AliveInfo
    else if k == 15 then AdminStatus
    else if k == 16 then AdminGroups
    else if k == 17 then AdminZones
    else if k == 18 then AdminChannels
    else if k == 19 then AdminInfo
    else if k == 20 then AdminError
    else None
  }

  function TypeFrom(s: string, k: nat): EChatCmdType
    decreases TYPES - k
  {
    if k >= TYPES then None
    else if s == ChatCmdTypeToString(TypeAt(k)) then TypeAt(k)
    else TypeFrom(s, k + 1)
  }

  function ChatCmdTypeFromString(s: string): EChatCmdType {
    TypeFrom(s, FIRST)
  }

  function Envelope(t: string, a: string, b: string, c: string): string {
    t + ":" + a + ":" + b + ":" + c
  }

  function Serialize(m: FDaraChatMsg): string {
    Envelope(ChatCmdTypeToString(m.Type), m.Sender, m.Recipient, m.Message)
  }

  function FindFrom(s: string, from: nat): (i: nat)
    requires from <= |s|
    ensures from <= i <= |s|
    ensures i < |s| ==> s[i] == ':'
    ensures forall k :: from <= k < i ==> s[k] != ':'
  {
    FindAt(s, ':', from)
  }

  /** The text cut at its first three colons. */
  datatype Cut = NotEnough | Pieces(typeName: string, sender: string, recipient: string, message: string)

  function CutAtColons(input: string): Cut {
    var first := FindFrom(input, 0);
    var second := if first == |input| then first else FindFrom(input, first + 1);
    var third := if second == |input| then second else FindFrom(input, second + 1);
    if third == |input| then NotEnough
    else Pieces(input[..first], input[first + 1..second], input[second + 1..third], input[third + 1..])
  }

  function FromPieces(c: Cut): Parsed {
    if c.NotEnough? then Rejected(NO_ENVELOPE)
    else
      var t := ChatCmdTypeFromString(c.typeName);
      if t == None then Rejected(UNKNOWN_TYPE) else Message(FDaraChatMsg(t, c.sender, c.recipient, c.message))
  }

  function TryParseMessage(input: string): Parsed {
    FromPieces(CutAtColons(input))
  }


  function Position(t: EChatCmdType): (k: nat)
    ensures k <= TYPES && TypeAt(k) == t
  {
    match t
    case Tell => 0
    case Group => 1
    case Raid => 2
    case Zone => 3
    case Channel => 4
    case GroupInvite => 5
    case GroupJoin => 6
    case GroupJoinInfo => 7
    case GroupDisband => 8
    case GroupDisbandInfo => 9
    case GroupKick => 10
    case GroupKickInfo => 11
    case GroupInfo => 12
    case Alive => 13
    case AliveInfo => 14
    case AdminStatus => 15
    case AdminGroups => 16
    case AdminZones => 17
    case AdminChannels => 18
    case AdminInfo => 19
    case AdminError => 20
    case None => 21
  }

  predicate IsPlayerType(t: EChatCmdType) {
    Position(t) <= 7
  }

  predicate IsNoticeType(t: EChatCmdType) {
    8 <= Position(t) <= 14
  }

  lemma PlayerTypesDistinct(t: EChatCmdType, u: EChatCmdType)
    requires IsPlayerType(t) && ChatCmdTypeToString(t) == ChatCmdTypeToString(u)
    ensures t == u
  {
  }

  lemma NoticeTypesDistinct(t: EChatCmdType, u: EChatCmdType)
    requires IsNoticeType(t) && ChatCmdTypeToString(t) == ChatCmdTypeToString(u)
    ensures t == u
  {
  }

  lemma AdminTypesDistinct(t: EChatCmdType, u: EChatCmdType)
    requires !IsPlayerType(t) && !IsNoticeType(t) && ChatCmdTypeToString(t) == ChatCmdTypeToString(u)
    ensures t == u
  {
  }

  lemma TypeNamesDistinct(t: EChatCmdType, u: EChatCmdType)
    requires ChatCmdTypeToString(t) == ChatCmdTypeToString(u)
    ensures t == u
  {
    if IsPlayerType(t) {
      PlayerTypesDistinct(t, u);
    } else if IsNoticeType(t) {
      NoticeTypesDistinct(t, u);
    } else {
      AdminTypesDistinct(t, u);
    }
  }

  lemma NoColonInType(t: EChatCmdType)
    ensures ':' !in ChatCmdTypeToString(t)
  {
    if IsPlayerType(t) {
      NoColonInPlayerType(t);
    } else if IsNoticeType(t) {
      NoColonInNoticeType(t);
    }
  }

  lemma NoColonInPlayerType(t: EChatCmdType)
    requires IsPlayerType(t)
    ensures ':' !in ChatCmdTypeToString(t)
  {
  }

  lemma NoColonInNoticeType(t: EChatCmdType)
    requires IsNoticeType(t)
    ensures ':' !in ChatCmdTypeToString(t)
  {
  }

  lemma {:induction false} TypeFound(t: EChatCmdType, k: nat)
    requires k <= Position(t)
    ensures TypeFrom(ChatCmdTypeToString(t), k) == t
    decreases TYPES - k
  {
    if k < TYPES && TypeAt(k) != t {
      if ChatCmdTypeToString(t) == ChatCmdTypeToString(TypeAt(k)) {
        TypeNamesDistinct(t, TypeAt(k));
      }
      TypeFound(t, k + 1);
    }
  }

  /** Every type is read back from its name. */
  lemma TypeRoundTrip(t: EChatCmdType)
    ensures ChatCmdTypeFromString(ChatCmdTypeToString(t)) == t
  {
    TypeFound(t, FIRST);
  }

  lemma {:induction false} NameFound(s: string, k: nat)
    requires TypeFrom(s, k) != None
    ensures ChatCmdTypeToString(TypeFrom(s, k)) == s
    decreases TYPES - k
  {
    if s != ChatCmdTypeToString(TypeAt(k)) {
      NameFound(s, k + 1);
    }
  }

  lemma NameRoundTrip(s: string)
    requires ChatCmdTypeFromString(s) != None
    ensures ChatCmdTypeToString(ChatCmdTypeFromString(s)) == s
  {
    NameFound(s, FIRST);
  }

  lemma EnvelopeParts(t: string, a: string, b: string, c: string)
    ensures var s := Envelope(t, a, b, c); var i := |t|; var j := i + 1 + |a|; var k := j + 1 + |b|;
            && k < |s| && s[i] == s[j] == s[k] == ':'
            && s[..i] == t && s[i + 1..j] == a && s[j + 1..k] == b && s[k + 1..] == c
  {
    var x := t + ":" + a;
    var y := x + ":" + b;
    assert Envelope(t, a, b, c) == y + ":" + c;
    assert y[..|x|] == x && y[|x| + 1..] == b;
  }

  lemma EnvelopeColons(t: string, a: string, b: string, c: string)
    requires ':' !in t && ':' !in a && ':' !in b
    ensures var s := Envelope(t, a, b, c); var i := |t|; var j := i + 1 + |a|; var k := j + 1 + |b|;
            FindFrom(s, 0) == i && FindFrom(s, i + 1) == j && FindFrom(s, j + 1) == k && k < |s|
  {
    EnvelopeParts(t, a, b, c);
    var s := Envelope(t, a, b, c);
    var i := |t|;
    var j := i + 1 + |a|;
    var k := j + 1 + |b|;
    assert forall n :: 0 <= n < i ==> s[n] == s[..i][n];
    assert forall n :: i + 1 <= n < j ==> s[n] == s[i + 1..j][n - (i + 1)];
    assert forall n :: j + 1 <= n < k ==> s[n] == s[j + 1..k][n - (j + 1)];
  }

  lemma EnvelopeIsCut(t: string, a: string, b: string, c: string)
    requires ':' !in t && ':' !in a && ':' !in b
    ensures CutAtColons(Envelope(t, a, b, c)) == Pieces(t, a, b, c)
  {
    EnvelopeColons(t, a, b, c);
    EnvelopeParts(t, a, b, c);
  }

  lemma PrintedParses(m: FDaraChatMsg)
    requires ':' !in m.Sender && ':' !in m.Recipient
    ensures TryParseMessage(Serialize(m)) == Message(m) <==> m.Type != None
  {
    var t := ChatCmdTypeToString(m.Type);
    TypeRoundTrip(m.Type);
    NoColonInType(m.Type);
    EnvelopeIsCut(t, m.Sender, m.Recipient, m.Message);
  }

  /** Parsing undoes printing exactly for active types and colon-free sender and recipient;
      the message text is arbitrary. */
  lemma ParseAfterPrint(m: FDaraChatMsg)
    ensures TryParseMessage(Serialize(m)) == Message(m) <==>
            m.Type != None && ':' !in m.Sender && ':' !in m.Recipient
  {
    if ':' !in m.Sender && ':' !in m.Recipient {
      PrintedParses(m);
    } else if TryParseMessage(Serialize(m)).Message? {
      ParsedFieldsColonFree(Serialize(m));
    }
  }

  lemma ParsedFieldsColonFree(input: string)
    requires TryParseMessage(input).Message?
    ensures var m := TryParseMessage(input).msg; ':' !in m.Sender && ':' !in m.Recipient
  {
    CutPieces(input);
  }

  /** Pieces of a cut are colon-free up to the message, and put together again give the text. */
  lemma CutPieces(input: string)
    requires CutAtColons(input).Pieces?
    ensures var c := CutAtColons(input);
            ':' !in c.sender && ':' !in c.recipient && Envelope(c.typeName, c.sender, c.recipient, c.message) == input
  {
    var first := FindFrom(input, 0);
    var second := FindFrom(input, first + 1);
    Reassemble(input, first, second, FindFrom(input, second + 1));
  }

  /** Every type name starts with a capital letter. */
  lemma TypeNameCapital(t: EChatCmdType)
    ensures ChatCmdTypeToString(t) != "" && 'A' <= ChatCmdTypeToString(t)[0] <= 'Z'
  {
  }

  /** So does every accepted text. */
  lemma AcceptedCapital(input: string)
    requires TryParseMessage(input).Message?
    ensures input != "" && 'A' <= input[0] <= 'Z'
  {
    var c := CutAtColons(input);
    NameRoundTrip(c.typeName);
    TypeNameCapital(ChatCmdTypeFromString(c.typeName));
    CutPieces(input);
  }

  /** A sender with a colon is read as the part before it; the rest shifts into the recipient. */
  lemma SenderCutShort(m: FDaraChatMsg, a: string, b: string)
    requires m.Type != None && m.Sender == a + ":" + b && ':' !in a && ':' !in b
    ensures TryParseMessage(Serialize(m)) == Message(FDaraChatMsg(m.Type, a, b, m.Recipient + ":" + m.Message))
  {
    var t := ChatCmdTypeToString(m.Type);
    var shifted := FDaraChatMsg(m.Type, a, b, m.Recipient + ":" + m.Message);
    Regroup(t, a, b, m.Recipient, m.Message);
    PrintedParses(shifted);
  }

  lemma Regroup(t: string, a: string, b: string, r: string, text: string)
    ensures Envelope(t, a + ":" + b, r, text) == Envelope(t, a, b, r + ":" + text)
  {
  }

  lemma Reassemble(s: string, i: nat, j: nat, k: nat)
    requires i < j < k < |s| && s[i] == s[j] == s[k] == ':'
    ensures Envelope(s[..i], s[i + 1..j], s[j + 1..k], s[k + 1..]) == s
  {
    assert s[..j] == s[..i] + ":" + s[i + 1..j];
    assert s[..k] == s[..j] + ":" + s[j + 1..k];
    assert s == s[..k] + ":" + s[k + 1..];
  }

  /** Printing undoes parsing on every accepted string. */
  lemma PrintAfterParse(input: string)
    requires TryParseMessage(input).Message?
    ensures Serialize(TryParseMessage(input).msg) == input
  {
    CutPieces(input);
    NameRoundTrip(CutAtColons(input).typeName);
  }

  /** Accepted: three colons, and a known type before the first one. */
  lemma Acceptance(input: string)
    ensures TryParseMessage(input).Message? <==>
            Count(input, ':') >= 3 && ChatCmdTypeFromString(input[..Find(input, ':')]) != None
  {
    ThreeColons(input);
  }

  lemma ThreeColons(s: string)
    ensures var first := FindFrom(s, 0);
            var second := if first == |s| then first else FindFrom(s, first + 1);
            var third := if second == |s| then second else FindFrom(s, second + 1);
            third < |s| <==> Count(s, ':') >= 3
  {
    var first := FindFrom(s, 0);
    CountPastFirst(s, ':', 0);
    if first < |s| {
      var second := FindFrom(s, first + 1);
      CountPastFirst(s, ':', first + 1);
      if second < |s| {
        CountPastFirst(s, ':', second + 1);
      }
    }
  }
}
