/**
 Updates that reach the controller cut into several lines, because a member's name holds a line
 break: what the controller makes of them, and exactly when its cache is right all the same.
 */
module CutUpdates {
  import opened Seqs
  import opened Wrappers
  import opened Text
  import opened Groups
  import opened GroupInfoCodec
  import opened GroupObserver

  // ------------------------------------------------------------------------- bots

  /** Characters of the prefixes the controller accepts; no letter or digit beyond ASCII is a
      line break either. */
  predicate PrefixChar(c: char) {
    'a' <= c <= 'z' || 'A' <= c <= 'Z' || IsDigit(c) || c == '_' || c as int >= 128
  }

  function BotNames(prefix: string): set<string> {
    set number | number in {"01", "02", "03", "04", "05", "06"} :: prefix + number
  }

  ghost predicate OneLineBots(bots: set<string>) {
    forall b :: b in bots ==> OneLine(b)
  }

  lemma BotNamesAreOneLine(prefix: string)
    requires forall i :: 0 <= i < |prefix| ==> PrefixChar(prefix[i])
    ensures OneLineBots(BotNames(prefix))
  {
  }

  ghost predicate HasBot(bots: set<string>, groups: Members, id: string) {
    exists b :: b in bots && GroupOf(groups, b) == id
  }

  /** Whatever the controller had cached for its bots, once any of them has printed the update of
      group `id` the bots cached in it are exactly those the server has in it. */
  ghost predicate AlwaysFollows(bots: set<string>, groups: Members, id: string) {
    forall s: State, name: string, running: bool :: s.groups.Keys == bots && name in bots ==>
      Follows(AfterUpdate(s, name, running, groups, id), groups, id)
  }

  // -------------------------------------------------------------- the exact condition

  function RStrip(s: string): string {
    if s != "" && IsSpace(s[|s| - 1]) then RStrip(s[..|s| - 1]) else s
  }

  /** The lines over which a member's entry is printed. */
  function EntryLines(m: GroupMember): (lines: seq<string>)
    ensures lines != []
  {
    OutputLines(Entry(m))
  }

  /** The end of the first line, where the member's entry begins. */
  function Cut(m: GroupMember): string {
    RStrip(EntryLines(m)[0])
  }

  /** The line neither undoes the printing bot's own group nor takes a bot for departed that is in
      group `id`. */
  predicate Harmless(line: string, bots: set<string>, groups: Members, id: string) {
    && !(LEAVE_PREFIX <= line)
    && (NoticeOf(line).Some? && NoticeOf(line).value in bots ==> GroupOf(groups, NoticeOf(line).value) != id)
  }

  ghost predicate AllHarmless(lines: seq<string>, bots: set<string>, groups: Members, id: string) {
    forall j :: 0 <= j < |lines| ==> Harmless(PyStrip(lines[j]), bots, groups, id)
  }

  ghost predicate NoticeAmong(lines: seq<string>, x: string) {
    exists j :: 0 <= j < |lines| && NoticeOf(PyStrip(lines[j])) == Some(x)
  }

  /** A bot that is not in group `id` is taken for departed again, whichever bot prints. */
  ghost predicate Corrected(lines: seq<string>, x: string, bots: set<string>, groups: Members, id: string) {
    NoticeAmong(lines, x) && forall b :: b in bots && b != x ==> GroupOf(groups, b) == id
  }

  /** The bot the cut entry names is in the group, is corrected afterwards, or is no bot. */
  ghost predicate CutNameOk(bots: set<string>, groups: Members, id: string, m: GroupMember, later: seq<string>) {
    var x := NameIn(Cut(m));
    x in bots && GroupOf(groups, x) != id ==> Corrected(later, x, bots, groups, id)
  }

  /** The last member's entry spoils nothing although it is cut: what the first line holds of it
      passes for an entry, names no bot outside the group that is not corrected afterwards, and
      the other lines do no harm. */
  ghost predicate CutWell(bots: set<string>, groups: Members, id: string, m: GroupMember) {
    var later := EntryLines(m)[1..];
    GoodEntry(Cut(m)) && AllHarmless(later, bots, groups, id) && CutNameOk(bots, groups, id, m, later)
  }

  ghost predicate ReadWell(bots: set<string>, groups: Members, id: string) {
    var roster := Roster(groups, id);
    || OneLineNames(roster)
    || (roster != [] && OneLineNames(Front(roster)) && CutWell(bots, groups, id, Last(roster)))
  }

  // ------------------------------------------------------------------- cutting texts

  predicate Break(c: char) {
    c == '\n' || c == '\r'
  }

  lemma UnixAppend(s: string, t: string)
    ensures UnixBreaks(s + t) == UnixBreaks(s) + UnixBreaks(t)
  {
  }

  lemma UnixOneLine(s: string)
    requires OneLine(s)
    ensures UnixBreaks(s) == s
  {
  }

  lemma UnixAt(s: string, k: nat)
    requires k < |s|
    ensures UnixBreaks(s)[k] == if Break(s[k]) then '\n' else s[k]
  {
  }

  /** The text up to its first line break. */
  lemma FirstBreak(s: string) returns (h: string, c: char, t: string)
    requires !OneLine(s)
    ensures s == h + [c] + t && OneLine(h) && Break(c)
  {
    var u := UnixBreaks(s);
    var i := FindAt(u, '\n', 0);
    var k :| 0 <= k < |s| && Break(s[k]);
    UnixAt(s, k);
    h, c, t := s[..i], s[i], s[i + 1..];
    UnixAt(s, i);
    forall j | 0 <= j < i ensures !Break(s[j]) {
      UnixAt(s, j);
    }
  }

  lemma CutAtBreak(h: string, c: char, t: string)
    requires OneLine(h) && Break(c)
    ensures OutputLines(h + [c] + t) == [h] + OutputLines(t)
  {
    UnixAppend(h + [c], t);
    UnixAppend(h, [c]);
    UnixOneLine(h);
    assert UnixBreaks([c]) == ['\n'];
    SplitHead(h, UnixBreaks(t), '\n');
  }

  lemma CutAtEnd(s: string)
    ensures OutputLines(s + "\n") == OutputLines(s) + [""]
  {
    UnixAppend(s, "\n");
    assert UnixBreaks("\n") == "" + ['\n'] + "";
    SplitHead("", "", '\n');
    SplitWhole("", '\n');
    SplitAppend(UnixBreaks(s), "" + ['\n'] + "", '\n');
    GluedEmpty(OutputLines(s));
  }

  lemma GluedEmpty(parts: seq<string>)
    requires parts != []
    ensures Glued(parts, [""] + [""]) == parts + [""]
  {
    var last := parts[|parts| - 1];
    assert last + "" == last && ([""] + [""])[1..] == [""];
    assert parts[..|parts| - 1] + [last] == parts;
  }

  function After(parts: seq<string>, d: char): string {
    if parts == [] then "" else [d] + Join(parts, d)
  }

  lemma {:induction false} JoinAfter(a: seq<string>, b: seq<string>, d: char)
    requires a != []
    ensures Join(a + b, d) == Join(a, d) + After(b, d)
  {
    if b == [] {
      assert a + b == a && Join(a, d) + "" == Join(a, d);
    } else if |b| == 1 {
      JoinSnoc(a, b[0], d);
      assert a + b == a + [b[0]] && After(b, d) == [d] + b[0];
    } else {
      var front, last := Front(b), Last(b);
      FrontLast(b);
      JoinAfter(a, front, d);
      assert a + b == (a + front) + [last];
      JoinSnoc(a + front, last, d);
      JoinSnoc(front, last, d);
      AfterSnoc(Join(a, d), [d], Join(front, d), last);
    }
  }

  lemma AfterSnoc(a: string, d: string, b: string, last: string)
    ensures a + (d + b) + d + last == a + (d + (b + d + last))
  {
  }

  lemma JoinAround(f: seq<string>, k: nat, d: char)
    requires 0 < k < |f|
    ensures Join(f, d) == Join(f[..k], d) + [d] + f[k] + After(f[k + 1..], d)
  {
    assert f[..k + 1] == f[..k] + [f[k]] && f == f[..k + 1] + f[k + 1..];
    JoinAfter(f[..k + 1], f[k + 1..], d);
    JoinSnoc(f[..k], f[k], d);
  }

  // ----------------------------------------------------------------- the first line

  lemma {:induction false} StripRight(p: string, s: string)
    requires p != "" && !IsSpace(p[0]) && !IsSpace(p[|p| - 1])
    ensures PyStrip(p + s) == p + RStrip(s)
    decreases |s|
  {
    if s != "" && IsSpace(s[|s| - 1]) {
      assert (p + s)[..|p + s| - 1] == p + s[..|s| - 1];
      StripRight(p, s[..|s| - 1]);
    } else {
      StripIdentity(p + s);
    }
  }

  lemma {:induction false} RStripFree(s: string, d: char)
    requires d !in s
    ensures d !in RStrip(s)
  {
    if s != "" && IsSpace(s[|s| - 1]) {
      RStripFree(s[..|s| - 1], d);
    }
  }

  /** The text of an update whose field `k` holds a line break. */
  lemma TextAround(f: seq<string>, k: nat, h: string, c: char, t: string)
    requires 0 < k < |f| && f[k] == h + [c] + t
    ensures ROSTER_PREFIX + Join(f, ';') + "\n"
         == (ROSTER_PREFIX + (Join(f[..k], ';') + [';'])) + h + [c] + (t + After(f[k + 1..], ';')) + "\n"
  {
    JoinAround(f, k, ';');
    Reassociate(ROSTER_PREFIX, Join(f[..k], ';'), [';'], h, [c], t, After(f[k + 1..], ';'));
  }

  lemma Reassociate(p: string, a: string, d: string, h: string, c: string, t: string, e: string)
    ensures p + (a + d + (h + c + t) + e) == (p + (a + d)) + h + c + (t + e)
  {
  }

  lemma HeadIsOneLine(parts: seq<string>)
    requires AllFree(parts, '\n') && AllFree(parts, '\r')
    ensures var head := ROSTER_PREFIX + (Join(parts, ';') + [';']);
      OneLine(head) && head != "" && !IsSpace(head[0]) && !IsSpace(head[|head| - 1])
  {
    JoinFree(parts, ';', '\n');
    JoinFree(parts, ';', '\r');
    PrefixIsPlain();
  }

  /** Field `k` of an update is the first to hold a line break: the first line ends there. */
  lemma FirstLine(f: seq<string>, k: nat, h: string, c: char, t: string)
    requires 0 < k < |f| && f[k] == h + [c] + t && OneLine(h) && Break(c)
    requires AllFree(f[..k], '\n') && AllFree(f[..k], '\r')
    ensures var head := ROSTER_PREFIX + (Join(f[..k], ';') + [';']);
      && OutputLines(ROSTER_PREFIX + Join(f, ';') + "\n") == [head + h] + OutputLines(t + After(f[k + 1..], ';')) + [""]
      && PyStrip(head + h) == head + RStrip(h)
  {
    var head, rest := ROSTER_PREFIX + (Join(f[..k], ';') + [';']), t + After(f[k + 1..], ';');
    HeadIsOneLine(f[..k]);
    TextAround(f, k, h, c, t);
    CutAtEnd(head + h + [c] + rest);
    CutAtBreak(head + h, c, rest);
    StripRight(head, h);
  }

  /** The fields the controller reads there. */
  lemma FirstFields(f: seq<string>, k: nat, h: string)
    requires 0 < k < |f| && AllFree(f, ';') && h <= f[k]
    ensures var text := Join(f[..k], ';') + [';'] + RStrip(h);
      && ROSTER_PREFIX + (Join(f[..k], ';') + [';']) + RStrip(h) == ROSTER_PREFIX + text
      && Split(text, ';') == f[..k] + [RStrip(h)]
  {
    JoinSnoc(f[..k], RStrip(h), ';');
    FieldFree(f, k, h);
    SplitJoin(f[..k] + [RStrip(h)], ';');
  }

  lemma FieldFree(f: seq<string>, k: nat, h: string)
    requires k < |f| && AllFree(f, ';') && h <= f[k]
    ensures AllFree(f[..k] + [RStrip(h)], ';')
  {
    assert ';' !in f[k] && ';' !in h;
    RStripFree(h, ';');
    assert forall i :: 0 <= i < k ==> f[..k][i] == f[i];
  }

  /** Cut at field `k`, an update reads as a listing exactly when `k` is the last field and passes
      for an entry. */
  lemma CutFields(info: GroupInfo, k: nat, r: string)
    requires Announces(info) && info.groupId != "" && k < |Fields(info)| && (k == 1 || k >= 5)
    ensures ReadFields(Fields(info)[..k] + [r]) ==
      if k == |Fields(info)| - 1 && k >= 5 && GoodEntry(r)
      then Listing(info.groupId, NamesOf(Front(info.groupMembers)) + {NameIn(r)}) else Ignored
  {
    var f := Fields(info);
    var fields := f[..k] + [r];
    if k >= 5 {
      assert fields[3] == PrintInt(info.memberCount) && fields[4] == (if k == 4 then r else PrintInt(info.errorCode)) && fields[0] == f[0];
      PyIntOfPrint(info.memberCount);
      PyIntOfPrint(info.errorCode);
      PrintedNames(info);
      if k == |f| - 1 {
        assert fields[k] == r && forall i :: 5 <= i < k ==> fields[i] == f[i];
        CutEntries(info, fields);
        CutNames(info, fields, r);
      }
    }
  }

  lemma FieldIsEntry(info: GroupInfo, i: nat)
    requires 5 <= i < |Fields(info)|
    ensures GoodEntry(Fields(info)[i]) && NameIn(Fields(info)[i]) == info.groupMembers[i - 5].name
  {
    assert Fields(info)[i] == Entry(info.groupMembers[i - 5]);
    EntryIsGood(info.groupMembers[i - 5]);
  }

  lemma CutEntries(info: GroupInfo, fields: seq<string>)
    requires info.groupMembers != [] && |fields| == |Fields(info)|
    requires forall i :: 5 <= i < |fields| - 1 ==> fields[i] == Fields(info)[i]
    ensures forall i :: 5 <= i < |fields| - 1 ==>
      GoodEntry(fields[i]) && NameIn(fields[i]) == Front(info.groupMembers)[i - 5].name
  {
    forall i | 5 <= i < |fields| - 1
      ensures GoodEntry(fields[i]) && NameIn(fields[i]) == Front(info.groupMembers)[i - 5].name
    {
      FieldIsEntry(info, i);
    }
  }

  lemma CutNames(info: GroupInfo, fields: seq<string>, r: string)
    requires info.groupMembers != [] && |fields| == |Fields(info)| && fields[|fields| - 1] == r
    requires forall i :: 5 <= i < |fields| - 1 ==> fields[i] == Fields(info)[i]
    ensures (set i | 5 <= i < |fields| :: NameIn(fields[i])) == NamesOf(Front(info.groupMembers)) + {NameIn(r)}
  {
    var front, last := Front(info.groupMembers), |fields| - 1;
    CutEntries(info, fields);
    forall b | b in NamesOf(front) + {NameIn(r)} ensures b in set i | 5 <= i < |fields| :: NameIn(fields[i]) {
      if b == NameIn(r) {
        assert NameIn(fields[last]) == b;
      } else {
        var i :| 0 <= i < |front| && front[i].name == b;
        assert NameIn(fields[i + 5]) == b;
      }
    }
  }

  // ---------------------------------------------------------------- the other lines

  /** A line that puts nobody into a group. */
  predicate ListsNobody(line: string) {
    ROSTER_PREFIX <= line ==>
      var report := ReadRoster(line[|ROSTER_PREFIX|..]); report.Ignored? || report.names == {}
  }

  lemma {:induction false} StripRange(s: string) returns (i: nat, j: nat)
    ensures i <= j <= |s| && PyStrip(s) == s[i..j]
  {
    if s == "" {
      i, j := 0, 0;
    } else if IsSpace(s[0]) {
      i, j := StripRange(s[1..]);
      assert s[1..][i..j] == s[i + 1..j + 1];
      i, j := i + 1, j + 1;
    } else if IsSpace(s[|s| - 1]) {
      i, j := StripRange(s[..|s| - 1]);
      assert s[..|s| - 1][i..j] == s[i..j];
    } else {
      i, j := 0, |s|;
    }
  }

  /** Where in the text a piece lies; all but the first are behind a delimiter. */
  lemma {:induction false} PieceStarts(s: string, d: char, from: nat, i: nat) returns (at: nat)
    requires from <= |s| && i < |SplitAt(s, d, from)|
    ensures from <= at && at + |SplitAt(s, d, from)[i]| <= |s| && SplitAt(s, d, from)[i] == s[at..at + |SplitAt(s, d, from)[i]|]
    ensures i > 0 ==> d in s[..at]
    decreases |s| - from
  {
    var k := FindAt(s, d, from);
    if k == |s| || i == 0 {
      at := from;
      if k == |s| {
        assert s[from..] == s[from..|s|];
      }
    } else {
      at := PieceStarts(s, d, k + 1, i - 1);
      assert s[k] == d && s[..at][k] == d;
    }
  }

  lemma SplitMiddle(p: string, l: string, q: string, d: char, i: nat)
    requires 0 < i < |Split(l, d)| - 1
    ensures var c := |Split(p, d)| - 1; c + i < |Split(p + l + q, d)| && Split(p + l + q, d)[c + i] == Split(l, d)[i]
  {
    SplitAppend(p, l, d);
    SplitAppend(p + l, q, d);
  }

  function UnixAll(parts: seq<string>): (r: seq<string>)
    ensures |r| == |parts|
  {
    seq(|parts|, i requires 0 <= i < |parts| => UnixBreaks(parts[i]))
  }

  lemma {:induction false} UnixJoin(parts: seq<string>, d: char)
    requires !Break(d)
    ensures UnixBreaks(Join(parts, d)) == Join(UnixAll(parts), d)
  {
    if |parts| > 1 {
      UnixJoin(parts[1..], d);
      UnixAppend(parts[0] + [d], Join(parts[1..], d));
      UnixAppend(parts[0], [d]);
      assert UnixAll(parts)[1..] == UnixAll(parts[1..]) && UnixBreaks([d]) == [d];
    }
  }

  lemma UnixKeeps(s: string, c: char)
    requires !Break(c)
    ensures c in s <==> c in UnixBreaks(s)
  {
    forall i | 0 <= i < |s| ensures s[i] == c <==> UnixBreaks(s)[i] == c {
      UnixAt(s, i);
    }
  }

  /** The text of an update as its lines are cut from it. */
  function UpdateText(f: seq<string>): string {
    UnixBreaks(ROSTER_PREFIX + Join(f, ';') + "\n")
  }

  lemma UpdateTextIs(f: seq<string>)
    ensures UpdateText(f) == ROSTER_PREFIX + Join(UnixAll(f), ';') + "\n"
  {
    UnixAppend(ROSTER_PREFIX + Join(f, ';'), "\n");
    UnixAppend(ROSTER_PREFIX, Join(f, ';'));
    PrefixIsPlain();
    UnixOneLine(ROSTER_PREFIX);
    UnixJoin(f, ';');
    assert UnixBreaks("\n") == "\n";
  }

  lemma PrefixIsOnePiece()
    ensures Split(ROSTER_PREFIX, ';') == [ROSTER_PREFIX] && Split("\n", ';') == ["\n"]
  {
    SplitWhole(ROSTER_PREFIX, ';');
    SplitWhole("\n", ';');
  }

  lemma UnixAllFree(f: seq<string>)
    requires AllFree(f, ';')
    ensures AllFree(UnixAll(f), ';')
  {
    forall i | 0 <= i < |f| ensures ';' !in UnixAll(f)[i] {
      UnixKeeps(f[i], ';');
    }
  }

  lemma UpdateFields(f: seq<string>)
    requires f != [] && AllFree(f, ';')
    ensures var u := UnixAll(f);
      Split(UpdateText(f), ';') == Glued(Glued([ROSTER_PREFIX], u), ["\n"])
  {
    UpdateTextIs(f);
    UnixAllFree(f);
    SplitJoin(UnixAll(f), ';');
    PrefixIsOnePiece();
    SplitAppend(ROSTER_PREFIX, Join(UnixAll(f), ';'), ';');
    SplitAppend(ROSTER_PREFIX + Join(UnixAll(f), ';'), "\n", ';');
  }

  /** From the sixth field on, every field holds a comma. */
  ghost predicate Commas(f: seq<string>) {
    forall i :: 5 <= i < |f| ==> ',' in f[i]
  }

  lemma LateFieldHasComma(f: seq<string>, i: nat)
    requires AllFree(f, ';') && Commas(f) && 5 <= i < |Split(UpdateText(f), ';')| && f != []
    ensures ',' in Split(UpdateText(f), ';')[i]
  {
    UpdateFields(f);
    UnixKeeps(f[i], ',');
    var u := UnixAll(f);
    assert Glued([ROSTER_PREFIX], u)[i] == u[i];
  }

  lemma {:induction false} StripHolds(s: string, c: char)
    requires c in s && !IsSpace(c)
    ensures c in PyStrip(s)
  {
    if IsSpace(s[0]) {
      StripHolds(s[1..], c);
    } else if IsSpace(s[|s| - 1]) {
      StripHolds(s[..|s| - 1], c);
    }
  }

  lemma {:induction false} DigitsHoldNoComma(s: string)
    requires PyDigits(s).Some?
    ensures ',' !in s
  {
    if |s| > 1 {
      DigitsHoldNoComma(if s[|s| - 2] == '_' then s[..|s| - 2] else s[..|s| - 1]);
    }
  }

  lemma NoNumberWithComma(text: string)
    requires ',' in text
    ensures PyInt(text).None?
  {
    StripHolds(text, ',');
    var s := PyStrip(text);
    if PyInt(text).Some? {
      DigitsHoldNoComma(if s[0] == '-' || s[0] == '+' then s[1..] else s);
    }
  }

  lemma BreakIsBehindHead(u: string, p: string, head: string)
    requires p <= u && head + [';'] <= u && '\n' !in head && '\n' in p
    ensures ';' in p
  {
    assert u[|head|] == (head + [';'])[|head|] == ';';
    if |p| > |head| {
      assert p[|head|] == ';';
    }
  }

  lemma TextHead(f: seq<string>)
    requires |f| > 1 && OneLine(f[0])
    ensures ROSTER_PREFIX + f[0] + [';'] <= UpdateText(f) && '\n' !in ROSTER_PREFIX + f[0]
  {
    UpdateTextIs(f);
    UnixOneLine(f[0]);
    PrefixIsPlain();
    var u := UnixAll(f);
    assert Join(u, ';') == f[0] + [';'] + Join(u[1..], ';');
    assert UpdateText(f) == (ROSTER_PREFIX + f[0] + [';']) + (Join(u[1..], ';') + "\n");
  }

  lemma PartBehindBreak(f: seq<string>, p: string, rest: string)
    requires |f| > 1 && OneLine(f[0]) && UpdateText(f) == p + rest && '\n' in p
    ensures |Split(p, ';')| > 1
  {
    TextHead(f);
    BreakIsBehindHead(UpdateText(f), p, ROSTER_PREFIX + f[0]);
    SplitCount(p, ';');
    if Count(p, ';') == 0 {
      CountZero(p, ';');
    }
  }

  lemma ListingHasNumbers(text: string)
    requires ReadRoster(text).Listing? && ReadRoster(text).names != {}
    ensures |Split(text, ';')| >= 6 && ',' !in Split(text, ';')[4]
  {
    var b :| b in ReadRoster(text).names;
    if ',' in Split(text, ';')[4] {
      NoNumberWithComma(Split(text, ';')[4]);
    }
  }

  /** A part of an update that lies behind a line break does not read as a listing of anybody. */
  lemma BehindBreak(f: seq<string>, p: string, l: string, q: string)
    requires |f| >= 5 && AllFree(f, ';') && Commas(f) && OneLine(f[0])
    requires UpdateText(f) == p + l + q && '\n' in p
    ensures ReadRoster(l).Ignored? || ReadRoster(l).names == {}
  {
    if ReadRoster(l).Listing? && ReadRoster(l).names != {} {
      ListingHasNumbers(l);
      assert p + l + q == p + (l + q);
      PartBehindBreak(f, p, l + q);
      SplitMiddle(p, l, q, ';', 4);
      LateFieldHasComma(f, |Split(p, ';')| - 1 + 4);
    }
  }

  lemma InnerRange(u: string, at: nat, n: nat, i: nat, j: nat)
    requires at + n <= |u| && i <= j <= n
    ensures u[at..at + n][i..j] == u[at + i..at + j]
  {
    var x, y := u[at..at + n][i..j], u[at + i..at + j];
    assert |x| == |y| == j - i;
    assert forall k :: 0 <= k < j - i ==> x[k] == u[at + i + k] == y[k];
  }

  /** Where a line, stripped, lies in the text. */
  lemma LineRange(u: string, i: nat) returns (from: nat, to: nat)
    requires i < |Split(u, '\n')|
    ensures from <= to <= |u| && PyStrip(Split(u, '\n')[i]) == u[from..to]
    ensures i > 0 ==> '\n' in u[..from]
  {
    var line := Split(u, '\n')[i];
    var at := PieceStarts(u, '\n', 0, i);
    var first, last := StripRange(line);
    from, to := at + first, at + last;
    InnerRange(u, at, |line|, first, last);
    LongerPrefix(u, at, from, '\n');
  }

  lemma LongerPrefix(u: string, i: nat, j: nat, c: char)
    requires i <= j <= |u|
    ensures c in u[..i] ==> c in u[..j]
  {
    assert u[..j] == u[..i] + u[i..j];
  }

  lemma Parts(u: string, i: nat, k: nat, j: nat)
    requires i <= k <= j <= |u|
    ensures u == u[..k] + u[k..j] + u[j..] && u[i..j][k - i..] == u[k..j]
  {
    InnerRange(u, i, j - i, k - i, j - i);
  }

  lemma RangeListsNobody(f: seq<string>, from: nat, to: nat)
    requires |f| >= 5 && AllFree(f, ';') && Commas(f) && OneLine(f[0])
    requires from <= to <= |UpdateText(f)| && '\n' in UpdateText(f)[..from]
    ensures ListsNobody(UpdateText(f)[from..to])
  {
    var u := UpdateText(f);
    if ROSTER_PREFIX <= u[from..to] {
      var k := from + |ROSTER_PREFIX|;
      Parts(u, from, k, to);
      LongerPrefix(u, from, k, '\n');
      BehindBreak(f, u[..k], u[k..to], u[to..]);
    }
  }

  /** Only the first line of an update can put anybody into a group. */
  lemma LaterLineListsNobody(f: seq<string>, i: nat)
    requires |f| >= 5 && AllFree(f, ';') && Commas(f) && OneLine(f[0])
    requires 0 < i < |Split(UpdateText(f), '\n')|
    ensures ListsNobody(PyStrip(Split(UpdateText(f), '\n')[i]))
  {
    var from, to := LineRange(UpdateText(f), i);
    RangeListsNobody(f, from, to);
  }

  // ------------------------------------------------------- what the lines do to the cache

  lemma ListingNobody(s: State, name: string, line: string, running: bool, id: string, b: string)
    requires name in s.groups && ListsNobody(line) && id != "" && b in s.groups && s.groups[b] != InGroup(id)
    ensures Observe(s, name, line, running).state.groups[b] != InGroup(id)
  {
    var text := if ROSTER_PREFIX <= line then line[|ROSTER_PREFIX|..] else "";
    if ROSTER_PREFIX <= line && ReadRoster(text).Listing? {
      assert CacheAs(s.groups[b], ReadRoster(text).id, false) != InGroup(id);
    }
  }

  ghost predicate AllListNobody(lines: seq<string>) {
    forall j :: 0 <= j < |lines| ==> ListsNobody(PyStrip(lines[j]))
  }

  /** A bot that is not cached in the group does not get there by such lines. */
  lemma {:induction false} StaysOut(s: State, name: string, lines: seq<string>, running: bool, id: string, b: string)
    requires name in s.groups && AllListNobody(lines) && id != "" && b in s.groups && s.groups[b] != InGroup(id)
    ensures ObserveLines(s, name, lines, running).groups[b] != InGroup(id)
    decreases |lines|
  {
    if lines != [] {
      ListingNobody(s, name, PyStrip(lines[0]), running, id, b);
      StaysOut(Observe(s, name, PyStrip(lines[0]), running).state, name, lines[1..], running, id, b);
    }
  }

  /** A line that is no listing. */
  predicate Quiet(line: string) {
    ROSTER_PREFIX <= line ==> ReadRoster(line[|ROSTER_PREFIX|..]).Ignored?
  }

  ghost predicate AllQuiet(lines: seq<string>) {
    forall j :: 0 <= j < |lines| ==> Quiet(PyStrip(lines[j]))
  }

  lemma {:induction false} StripFree(s: string, d: char)
    requires d !in s
    ensures d !in PyStrip(s)
  {
    if s != "" {
      if IsSpace(s[0]) {
        StripFree(s[1..], d);
      } else if IsSpace(s[|s| - 1]) {
        StripFree(s[..|s| - 1], d);
      }
    }
  }

  lemma FreeIsQuiet(line: string)
    requires ';' !in line
    ensures Quiet(line)
  {
    if ROSTER_PREFIX <= line {
      SplitWhole(line[|ROSTER_PREFIX|..], ';');
    }
  }

  /** The bot that prints and bot `b` are cached in the same group. */
  predicate Together(s: State, name: string, b: string)
    requires name in s.groups && b in s.groups
  {
    s.groups[name].InGroup? && s.groups[name].id != "" && s.groups[b] == s.groups[name]
  }

  lemma NoticeIsNoLeave(line: string)
    requires NoticeOf(line).Some?
    ensures !(LEAVE_PREFIX <= line) && !(ROSTER_PREFIX <= line)
  {
    assert line[0] == 'R' && LEAVE_PREFIX[0] == 'C';
    assert line[14] == DISBAND_PREFIX[14] == 'D' && ROSTER_PREFIX[14] == 'I';
  }

  /** What such a line does to bot `b`. */
  lemma QuietEffect(s: State, name: string, line: string, running: bool, b: string)
    requires name in s.groups && b in s.groups && Quiet(line)
    ensures Observe(s, name, line, running).state.groups[b] ==
            if LEAVE_PREFIX <= line && b == name then Unknown
            else if NoticeOf(line) == Some(b) && Together(s, name, b) then InGroup("")
            else s.groups[b]
  {
    if NoticeOf(line).Some? {
      NoticeIsNoLeave(line);
    } else if LEAVE_PREFIX <= line {
      assert line[0] == 'C' && ROSTER_PREFIX[0] == 'R';
    }
  }

  /** The cache is right for group `id` but for bot `x`. */
  ghost predicate FollowsBut(s: State, groups: Members, id: string, x: string) {
    forall b :: b in s.groups && b != x ==> (s.groups[b] == InGroup(id) <==> GroupOf(groups, b) == id)
  }

  lemma HarmlessStep(s: State, name: string, line: string, running: bool, groups: Members, id: string, x: string)
    requires name in s.groups && id != "" && Quiet(line) && Harmless(line, s.groups.Keys, groups, id)
    requires FollowsBut(s, groups, id, x)
    ensures FollowsBut(Observe(s, name, line, running).state, groups, id, x)
    ensures Follows(s, groups, id) ==> Follows(Observe(s, name, line, running).state, groups, id)
  {
    forall b | b in s.groups
      ensures s.groups[b] == InGroup(id) && GroupOf(groups, b) == id
              ==> Observe(s, name, line, running).state.groups[b] == InGroup(id)
      ensures s.groups[b] != InGroup(id) ==> Observe(s, name, line, running).state.groups[b] != InGroup(id)
    {
      QuietEffect(s, name, line, running, b);
    }
  }

  lemma {:induction false} HarmlessLines(s: State, name: string, lines: seq<string>, running: bool, groups: Members, id: string)
    requires name in s.groups && id != "" && AllQuiet(lines) && AllHarmless(lines, s.groups.Keys, groups, id)
    requires Follows(s, groups, id)
    ensures Follows(ObserveLines(s, name, lines, running), groups, id)
    decreases |lines|
  {
    if lines != [] {
      HarmlessStep(s, name, PyStrip(lines[0]), running, groups, id, "");
      HarmlessLines(Observe(s, name, PyStrip(lines[0]), running).state, name, lines[1..], running, groups, id);
    }
  }

  lemma NoticeInTail(lines: seq<string>, x: string)
    requires NoticeAmong(lines, x)
    ensures NoticeOf(PyStrip(lines[0])) == Some(x) || NoticeAmong(lines[1..], x)
  {
    var j :| 0 <= j < |lines| && NoticeOf(PyStrip(lines[j])) == Some(x);
    if j > 0 {
      assert lines[1..][j - 1] == lines[j];
    }
  }

  /** The notice itself. */
  lemma NoticeCorrects(s: State, name: string, line: string, running: bool, groups: Members, id: string, x: string)
    requires name in s.groups && id != "" && Quiet(line) && NoticeOf(line) == Some(x) && x in s.groups
    requires GroupOf(groups, x) != id && FollowsBut(s, groups, id, x) && s.groups[x] == InGroup(id)
    requires FollowsBut(Observe(s, name, line, running).state, groups, id, x)
    requires name == x || GroupOf(groups, name) == id
    ensures Follows(Observe(s, name, line, running).state, groups, id)
  {
    QuietEffect(s, name, line, running, x);
    assert Together(s, name, x);
  }

  /** A departure notice among the lines corrects the one bot that was cached wrongly. */
  lemma {:induction false} LinesCorrect(s: State, name: string, lines: seq<string>, running: bool, groups: Members, id: string, x: string)
    requires name in s.groups && id != "" && AllQuiet(lines) && AllHarmless(lines, s.groups.Keys, groups, id)
    requires x in s.groups && GroupOf(groups, x) != id && FollowsBut(s, groups, id, x)
    requires NoticeAmong(lines, x) && (name == x || GroupOf(groups, name) == id)
    ensures Follows(ObserveLines(s, name, lines, running), groups, id)
    decreases |lines|
  {
    if s.groups[x] != InGroup(id) {
      HarmlessLines(s, name, lines, running, groups, id);
    } else {
      var s1 := Observe(s, name, PyStrip(lines[0]), running).state;
      HarmlessStep(s, name, PyStrip(lines[0]), running, groups, id, x);
      NoticeInTail(lines, x);
      if NoticeOf(PyStrip(lines[0])) == Some(x) {
        NoticeCorrects(s, name, PyStrip(lines[0]), running, groups, id, x);
        HarmlessLines(s1, name, lines[1..], running, groups, id);
      } else {
        LinesCorrect(s1, name, lines[1..], running, groups, id, x);
      }
    }
  }

  /** A line that makes the bot printing it forget its own group `id`. */
  predicate Undoes(line: string, b: string) {
    LEAVE_PREFIX <= line || NoticeOf(line) == Some(b)
  }

  lemma {:induction false} LinesUndo(s: State, b: string, lines: seq<string>, running: bool, id: string, j: nat)
    requires b in s.groups && id != "" && AllQuiet(lines) && j < |lines| && Undoes(PyStrip(lines[j]), b)
    ensures ObserveLines(s, b, lines, running).groups[b] != InGroup(id)
    decreases |lines|
  {
    var s1 := Observe(s, b, PyStrip(lines[0]), running).state;
    if j == 0 {
      QuietEffect(s, b, PyStrip(lines[0]), running, b);
      assert AllListNobody(lines[1..]);
      StaysOut(s1, b, lines[1..], running, id, b);
    } else {
      LinesUndo(s1, b, lines[1..], running, id, j - 1);
    }
  }

  /** A bot cached wrongly stays so unless a notice names it while the bot that prints is in the
      same group. */
  lemma {:induction false} StaysWrong(s: State, name: string, lines: seq<string>, running: bool, id: string, x: string)
    requires name in s.groups && x in s.groups && name != x && id != "" && AllQuiet(lines) && s.groups[x] == InGroup(id)
    requires !NoticeAmong(lines, x) || s.groups[name] != InGroup(id)
    ensures ObserveLines(s, name, lines, running).groups[x] == InGroup(id)
    decreases |lines|
  {
    if lines != [] {
      var s1 := Observe(s, name, PyStrip(lines[0]), running).state;
      QuietEffect(s, name, PyStrip(lines[0]), running, x);
      QuietEffect(s, name, PyStrip(lines[0]), running, name);
      if NoticeAmong(lines[1..], x) {
        var j :| 0 <= j < |lines[1..]| && NoticeOf(PyStrip(lines[1..][j])) == Some(x);
        assert NoticeOf(PyStrip(lines[j + 1])) == Some(x);
      }
      assert NoticeOf(PyStrip(lines[0])) == Some(x) ==> NoticeAmong(lines, x);
      StaysWrong(s1, name, lines[1..], running, id, x);
    }
  }

  // ----------------------------------------------------------- what an update is made of

  lemma EntryOneLine(m: GroupMember)
    ensures OneLine(Entry(m)) <==> OneLine(m.name)
  {
    assert Entry(m) == m.name + ("," + Bit(m.isOnline)) && OneLine("," + Bit(m.isOnline));
    if OneLine(Entry(m)) {
      assert forall i :: 0 <= i < |m.name| ==> m.name[i] == Entry(m)[i];
    }
  }

  lemma {:induction false} FirstBroken(ms: Members) returns (j: nat)
    requires !OneLineNames(ms)
    ensures j < |ms| && !OneLine(ms[j].name) && OneLineNames(ms[..j])
    decreases |ms|
  {
    if OneLineNames(Front(ms)) {
      j := |ms| - 1;
      FrontLast(ms);
    } else {
      j := FirstBroken(Front(ms));
      assert Front(ms)[..j] == ms[..j];
    }
  }

  /** The fields of an update for a group with members. */
  ghost predicate Update(groups: Members, id: string, info: GroupInfo) {
    && WellFormed(groups) && NoSemicolons(groups) && id != "" && ';' !in id && OneLine(id)
    && info == InfoById(groups, id) && |info.groupMembers| >= 2 && info.leaderName == info.groupMembers[0].name
    && UpdateLine(groups, id) == ROSTER_PREFIX + Join(Fields(info), ';')
    && AllFree(Fields(info), ';') && Commas(Fields(info))
  }

  lemma UpdateIs(groups: Members, id: string)
    requires WellFormed(groups) && NoSemicolons(groups) && id != "" && ';' !in id && OneLine(id)
    requires |Roster(groups, id)| >= 2
    ensures Update(groups, id, InfoById(groups, id))
  {
    var info := InfoById(groups, id);
    UpdateLineShape(groups, id);
    InfoSeparable(groups, id);
    FieldsFree(info);
    LeaderIsFirst(groups, id);
    forall i | 5 <= i < |Fields(info)| ensures ',' in Fields(info)[i] {
      EntryShape(info.groupMembers[i - 5]);
    }
  }

  /** Field `k` is the first of the update's fields that holds a line break. */
  ghost predicate FirstCut(f: seq<string>, k: nat) {
    && 0 < k < |f| && (k == 1 || k >= 5) && !OneLine(f[k])
    && AllFree(f[..k], '\n') && AllFree(f[..k], '\r')
  }

  lemma NumbersOneLine(info: GroupInfo)
    ensures OneLine(Fields(info)[2]) && OneLine(Fields(info)[3]) && OneLine(Fields(info)[4])
  {
    PrintIntFree(info.memberCount, '\n');
    PrintIntFree(info.memberCount, '\r');
    PrintIntFree(info.errorCode, '\n');
    PrintIntFree(info.errorCode, '\r');
  }

  lemma FieldsBefore(info: GroupInfo, j: nat)
    requires 0 < j < |info.groupMembers| && OneLineNames(info.groupMembers[..j])
    requires OneLine(info.groupId) && info.leaderName == info.groupMembers[0].name
    ensures AllFree(Fields(info)[..5 + j], '\n') && AllFree(Fields(info)[..5 + j], '\r')
  {
    var f, ms := Fields(info)[..5 + j], info.groupMembers;
    NumbersOneLine(info);
    forall i | 0 <= i < 5 + j ensures OneLine(f[i]) {
      if i == 1 {
        assert ms[..j][0] == ms[0];
      } else if i >= 5 {
        assert ms[..j][i - 5] == ms[i - 5];
        EntryOneLine(ms[i - 5]);
      }
    }
  }

  /** It is the last one exactly when the last member's name is the only one with a break. */
  lemma CutField(groups: Members, id: string, info: GroupInfo) returns (k: nat)
    requires Update(groups, id, info) && !OneLineNames(info.groupMembers)
    ensures FirstCut(Fields(info), k)
    ensures k == |Fields(info)| - 1 <==> OneLineNames(Front(info.groupMembers))
  {
    var ms := info.groupMembers;
    var j := FirstBroken(ms);
    if j == 0 {
      k := 1;
    } else {
      k := 5 + j;
      EntryOneLine(ms[j]);
      FieldsBefore(info, j);
    }
    if j == |ms| - 1 {
      assert ms[..j] == Front(ms);
    } else {
      assert Front(ms)[j] == ms[j];
    }
  }

  /** What the first line does to the controller's state. */
  function Seen(s: State, name: string, report: Report, running: bool): (s': State)
    requires name in s.groups
    ensures s'.groups.Keys == s.groups.Keys
  {
    match report
    case Ignored => s
    case Listing(id, names) => OnRoster(s, name, id, names, running).state
  }

  lemma ObserveFirst(s: State, name: string, first: string, text: string, rest: seq<string>, running: bool)
    requires name in s.groups && PyStrip(first) == ROSTER_PREFIX + text
    ensures ObserveLines(s, name, [first] + rest, running) ==
            ObserveLines(Seen(s, name, ReadRoster(text), running), name, rest, running)
  {
    ObserveListing(s, name, text, running);
    assert ([first] + rest)[1..] == rest;
  }

  /** An update cut in field `k`, observed: its first line, then the others. */
  lemma CutObserved(s: State, name: string, running: bool, groups: Members, id: string, info: GroupInfo,
                    k: nat, h: string, c: char, t: string)
    requires name in s.groups && Update(groups, id, info) && FirstCut(Fields(info), k)
    requires Fields(info)[k] == h + [c] + t && OneLine(h) && Break(c)
    ensures AfterUpdate(s, name, running, groups, id) ==
            ObserveLines(Seen(s, name, ReadFields(Fields(info)[..k] + [RStrip(h)]), running), name,
                         OutputLines(t + After(Fields(info)[k + 1..], ';')) + [""], running)
  {
    var f := Fields(info);
    var head, rest := ROSTER_PREFIX + (Join(f[..k], ';') + [';']), OutputLines(t + After(f[k + 1..], ';')) + [""];
    FirstLine(f, k, h, c, t);
    assert h <= f[k];
    FirstFields(f, k, h);
    assert [head + h] + OutputLines(t + After(f[k + 1..], ';')) + [""] == [head + h] + rest;
    ObserveFirst(s, name, head + h, Join(f[..k], ';') + [';'] + RStrip(h), rest, running);
  }

  lemma AllButFirst(f: seq<string>, lines: seq<string>, first: string, rest: seq<string>)
    requires |f| >= 5 && AllFree(f, ';') && Commas(f) && OneLine(f[0])
    requires lines == Split(UpdateText(f), '\n') && lines == [first] + rest
    ensures AllListNobody(rest)
  {
    forall j | 0 <= j < |rest| ensures ListsNobody(PyStrip(rest[j])) {
      LaterLineListsNobody(f, j + 1);
      assert rest[j] == lines[j + 1];
    }
  }

  lemma LaterLines(groups: Members, id: string, info: GroupInfo, k: nat, h: string, c: char, t: string)
    requires Update(groups, id, info) && FirstCut(Fields(info), k)
    requires Fields(info)[k] == h + [c] + t && OneLine(h) && Break(c)
    ensures AllListNobody(OutputLines(t + After(Fields(info)[k + 1..], ';')) + [""])
  {
    var f := Fields(info);
    var head, rest := ROSTER_PREFIX + (Join(f[..k], ';') + [';']), OutputLines(t + After(f[k + 1..], ';')) + [""];
    FirstLine(f, k, h, c, t);
    assert [head + h] + OutputLines(t + After(f[k + 1..], ';')) + [""] == [head + h] + rest;
    AllButFirst(f, OutputLines(ROSTER_PREFIX + Join(f, ';') + "\n"), head + h, rest);
  }

  lemma IgnoredFields(info: GroupInfo, k: nat, r: string)
    requires Announces(info) && info.groupId != "" && k < |Fields(info)| && (k == 1 || k >= 5)
    requires k == |Fields(info)| - 1 ==> !GoodEntry(r)
    ensures ReadFields(Fields(info)[..k] + [r]) == Ignored
  {
    CutFields(info, k, r);
  }

  lemma CutIgnored(info: GroupInfo, k: nat, h: string, c: char, t: string)
    requires Announces(info) && info.groupId != "" && k < |Fields(info)| && (k == 1 || k >= 5)
    requires info.groupMembers != [] && Fields(info)[k] == h + [c] + t && OneLine(h) && Break(c)
    requires k == |Fields(info)| - 1 ==> !GoodEntry(Cut(Last(info.groupMembers)))
    ensures ReadFields(Fields(info)[..k] + [RStrip(h)]) == Ignored
  {
    if k == |Fields(info)| - 1 {
      LastEntry(info, h, c, t);
    }
    IgnoredFields(info, k, RStrip(h));
  }

  /** Unless the cut is in the last member's name alone and leaves something that passes for an
      entry, the update puts nobody into a group. */
  lemma NothingListed(s: State, name: string, running: bool, groups: Members, id: string, info: GroupInfo, b: string)
    requires name in s.groups && Update(groups, id, info) && !OneLineNames(info.groupMembers)
    requires b in s.groups && s.groups[b] != InGroup(id)
    requires !(OneLineNames(Front(info.groupMembers)) && GoodEntry(Cut(Last(info.groupMembers))))
    ensures AfterUpdate(s, name, running, groups, id).groups[b] != InGroup(id)
  {
    var f := Fields(info);
    var k := CutField(groups, id, info);
    var h, c, t := FirstBreak(f[k]);
    CutIgnored(info, k, h, c, t);
    CutObserved(s, name, running, groups, id, info, k, h, c, t);
    LaterLines(groups, id, info, k, h, c, t);
    StaysOut(s, name, OutputLines(t + After(f[k + 1..], ';')) + [""], running, id, b);
  }

  function Blank(bots: set<string>): State {
    State(map b | b in bots :: Unknown, map[])
  }

  lemma LastEntry(info: GroupInfo, h: string, c: char, t: string)
    requires info.groupMembers != [] && Fields(info)[|Fields(info)| - 1] == h + [c] + t && OneLine(h) && Break(c)
    ensures EntryLines(Last(info.groupMembers)) == [h] + OutputLines(t)
    ensures Cut(Last(info.groupMembers)) == RStrip(h)
  {
    CutAtBreak(h, c, t);
  }

  /** What the first line of an update cut in its last entry reports. */
  function LastCut(id: string, ms: Members): Report
    requires ms != []
  {
    Listing(id, NamesOf(Front(ms)) + {NameIn(Cut(Last(ms)))})
  }

  /** The lines behind it. */
  function Behind(ms: Members): seq<string>
    requires ms != []
  {
    EntryLines(Last(ms))[1..] + [""]
  }

  lemma BehindIsQuiet(groups: Members, id: string, ms: Members)
    requires NoSemicolons(groups) && ms == Roster(groups, id) != []
    ensures AllQuiet(Behind(ms))
  {
    RosterContents(groups, id);
    var m, lines := Last(ms), EntryLines(Last(ms));
    assert ms[|ms| - 1] in groups && ';' !in m.name;
    EntryFree(m);
    UnixKeeps(Entry(m), ';');
    PiecesWithout(UnixBreaks(Entry(m)), '\n', ';', 0);
    forall j | 0 <= j < |Behind(ms)| ensures Quiet(PyStrip(Behind(ms)[j])) {
      assert Behind(ms)[j] == "" || Behind(ms)[j] == lines[j + 1];
      StripFree(Behind(ms)[j], ';');
      FreeIsQuiet(PyStrip(Behind(ms)[j]));
    }
  }

  /** Such an update observed. */
  lemma LastCutObserved(s: State, name: string, running: bool, groups: Members, id: string, info: GroupInfo)
    requires name in s.groups && Update(groups, id, info) && !OneLineNames(info.groupMembers)
    requires OneLineNames(Front(info.groupMembers)) && GoodEntry(Cut(Last(info.groupMembers)))
    ensures AfterUpdate(s, name, running, groups, id) ==
            ObserveLines(Seen(s, name, LastCut(id, info.groupMembers), running), name, Behind(info.groupMembers), running)
  {
    var f := Fields(info);
    var k := CutField(groups, id, info);
    var h, c, t := FirstBreak(f[k]);
    LastEntry(info, h, c, t);
    CutFields(info, k, RStrip(h));
    CutObserved(s, name, running, groups, id, info, k, h, c, t);
    assert f[k + 1..] == [] && t + After([], ';') == t;
    assert EntryLines(Last(info.groupMembers))[1..] == OutputLines(t);
  }

  // ------------------------------------------------------------------ the exact condition

  /** After the first line the cache is right but for the bot that the cut entry names. */
  lemma CutListing(s: State, name: string, running: bool, groups: Members, id: string, ms: Members, b: string)
    requires name in s.groups && b in s.groups && OneLine(b) && WellFormed(groups) && id != ""
    requires ms == Roster(groups, id) != [] && !OneLine(Last(ms).name)
    ensures Seen(s, name, LastCut(id, ms), running).groups[b] == InGroup(id) <==>
            GroupOf(groups, b) == id || b == NameIn(Cut(Last(ms)))
  {
    StoredInGroup(groups, id, b);
    NamesSnoc(ms);
    ListingIsCached(s, name, id, LastCut(id, ms).names, running, b);
  }

  lemma NamesSnoc(ms: Members)
    requires ms != []
    ensures NamesOf(ms) == NamesOf(Front(ms)) + {Last(ms).name}
  {
    forall b | b in NamesOf(ms) ensures b in NamesOf(Front(ms)) + {Last(ms).name} {
      var i :| 0 <= i < |ms| && ms[i].name == b;
      if i < |ms| - 1 {
        assert Front(ms)[i].name == b;
      }
    }
    forall b | b in NamesOf(Front(ms)) ensures b in NamesOf(ms) {
      var i :| 0 <= i < |Front(ms)| && Front(ms)[i].name == b;
      assert ms[i].name == b;
    }
  }

  lemma EmptyIsHarmless(lines: seq<string>, bots: set<string>, groups: Members, id: string)
    ensures AllHarmless(lines + [""], bots, groups, id) <==> AllHarmless(lines, bots, groups, id)
  {
    var all := lines + [""];
    assert PyStrip("") == "" && Harmless("", bots, groups, id);
    assert forall j :: 0 <= j < |lines| ==> all[j] == lines[j];
    if AllHarmless(all, bots, groups, id) {
      forall j | 0 <= j < |lines| ensures Harmless(PyStrip(lines[j]), bots, groups, id) {
        assert Harmless(PyStrip(all[j]), bots, groups, id);
      }
    }
  }

  lemma EmptyIsNoNotice(lines: seq<string>, x: string)
    ensures NoticeAmong(lines + [""], x) <==> NoticeAmong(lines, x)
  {
    var all := lines + [""];
    assert all[|lines|] == "" && PyStrip("") == "";
    if NoticeAmong(all, x) {
      var j :| 0 <= j < |all| && NoticeOf(PyStrip(all[j])) == Some(x);
      assert NoticeOf(PyStrip(lines[j])) == Some(x);
    }
    if NoticeAmong(lines, x) {
      var j :| 0 <= j < |lines| && NoticeOf(PyStrip(lines[j])) == Some(x);
      assert NoticeOf(PyStrip(all[j])) == Some(x);
    }
  }

  /** The empty line at the end of the output makes no difference. */
  lemma EmptyLineLast(bots: set<string>, groups: Members, id: string, m: GroupMember)
    ensures CutWell(bots, groups, id, m) <==>
      && GoodEntry(Cut(m)) && AllHarmless(EntryLines(m)[1..] + [""], bots, groups, id)
      && CutNameOk(bots, groups, id, m, EntryLines(m)[1..] + [""])
  {
    EmptyIsHarmless(EntryLines(m)[1..], bots, groups, id);
    EmptyIsNoNotice(EntryLines(m)[1..], NameIn(Cut(m)));
  }

  /** Where the name of the last member alone holds a break. */
  ghost predicate LastAlone(groups: Members, id: string, info: GroupInfo) {
    && Update(groups, id, info) && !OneLine(Last(info.groupMembers).name) && OneLineNames(Front(info.groupMembers))
    && GoodEntry(Cut(Last(info.groupMembers)))
  }

  lemma LastAloneBroken(groups: Members, id: string, info: GroupInfo)
    requires LastAlone(groups, id, info)
    ensures !OneLineNames(info.groupMembers) && AllQuiet(Behind(info.groupMembers))
    ensures info.groupMembers == Roster(groups, id)
  {
    assert Last(info.groupMembers) in info.groupMembers;
    BehindIsQuiet(groups, id, info.groupMembers);
  }

  lemma CutWellFollows(s: State, name: string, running: bool, groups: Members, id: string, info: GroupInfo)
    requires name in s.groups && OneLineBots(s.groups.Keys) && LastAlone(groups, id, info)
    requires AllHarmless(Behind(info.groupMembers), s.groups.Keys, groups, id)
    requires CutNameOk(s.groups.Keys, groups, id, Last(info.groupMembers), Behind(info.groupMembers))
    ensures Follows(AfterUpdate(s, name, running, groups, id), groups, id)
  {
    var ms, x := info.groupMembers, NameIn(Cut(Last(info.groupMembers)));
    LastAloneBroken(groups, id, info);
    LastCutObserved(s, name, running, groups, id, info);
    var s1 := Seen(s, name, LastCut(id, ms), running);
    forall b | b in s.groups ensures s1.groups[b] == InGroup(id) <==> GroupOf(groups, b) == id || b == x {
      CutListing(s, name, running, groups, id, ms, b);
    }
    if x in s.groups && GroupOf(groups, x) != id {
      LinesCorrect(s1, name, Behind(ms), running, groups, id, x);
    } else {
      HarmlessLines(s1, name, Behind(ms), running, groups, id);
    }
  }

  lemma MissedBy(bots: set<string>, groups: Members, id: string, name: string, b: string)
    requires name in bots && b in bots
    requires (AfterUpdate(Blank(bots), name, true, groups, id).groups[b] == InGroup(id)) != (GroupOf(groups, b) == id)
    ensures !AlwaysFollows(bots, groups, id)
  {
    assert Blank(bots).groups.Keys == bots;
    assert !Follows(AfterUpdate(Blank(bots), name, true, groups, id), groups, id);
  }

  /** One of the later lines does harm. */
  lemma HarmMissed(bots: set<string>, groups: Members, id: string, info: GroupInfo, j: nat)
    requires LastAlone(groups, id, info) && HasBot(bots, groups, id) && j < |Behind(info.groupMembers)|
    requires !Harmless(PyStrip(Behind(info.groupMembers)[j]), bots, groups, id)
    ensures !AlwaysFollows(bots, groups, id)
  {
    var ms := info.groupMembers;
    var line := PyStrip(Behind(ms)[j]);
    var b :| b in bots && GroupOf(groups, b) == id && Undoes(line, b);
    LastAloneBroken(groups, id, info);
    LastCutObserved(Blank(bots), b, true, groups, id, info);
    LinesUndo(Seen(Blank(bots), b, LastCut(id, ms), true), b, Behind(ms), true, id, j);
    MissedBy(bots, groups, id, b, b);
  }

  /** The cut entry names a bot outside the group, and some bot prints no correction of that. */
  lemma WrongNameMissed(bots: set<string>, groups: Members, id: string, info: GroupInfo)
    requires LastAlone(groups, id, info) && HasBot(bots, groups, id) && OneLineBots(bots)
    requires !CutNameOk(bots, groups, id, Last(info.groupMembers), Behind(info.groupMembers))
    ensures !AlwaysFollows(bots, groups, id)
  {
    var ms, x := info.groupMembers, NameIn(Cut(Last(info.groupMembers)));
    var member :| member in bots && GroupOf(groups, member) == id;
    var name := member;
    if NoticeAmong(Behind(ms), x) {
      name :| name in bots && name != x && GroupOf(groups, name) != id;
    }
    LastAloneBroken(groups, id, info);
    LastCutObserved(Blank(bots), name, true, groups, id, info);
    CutListing(Blank(bots), name, true, groups, id, ms, x);
    CutListing(Blank(bots), name, true, groups, id, ms, name);
    StaysWrong(Seen(Blank(bots), name, LastCut(id, ms), true), name, Behind(ms), true, id, x);
    MissedBy(bots, groups, id, name, x);
  }

  lemma CutMissed(bots: set<string>, groups: Members, id: string, info: GroupInfo)
    requires Update(groups, id, info) && !OneLineNames(info.groupMembers) && HasBot(bots, groups, id)
    requires !(OneLineNames(Front(info.groupMembers)) && GoodEntry(Cut(Last(info.groupMembers))))
    ensures !AlwaysFollows(bots, groups, id)
  {
    var b :| b in bots && GroupOf(groups, b) == id;
    NothingListed(Blank(bots), b, true, groups, id, info, b);
    MissedBy(bots, groups, id, b, b);
  }

  lemma TwoMembers(bots: set<string>, groups: Members, id: string)
    requires WellFormed(groups) && id != "" && HasBot(bots, groups, id) && OneLineBots(bots)
    requires !OneLineNames(Roster(groups, id))
    ensures |Roster(groups, id)| >= 2
  {
    var b :| b in bots && GroupOf(groups, b) == id;
    var roster := Roster(groups, id);
    StoredInGroup(groups, id, b);
    var i :| 0 <= i < |roster| && roster[i].name == b;
    var m :| m in roster && !OneLine(m.name);
    var j :| 0 <= j < |roster| && roster[j] == m;
    assert i != j;
  }

  lemma FollowsCut(bots: set<string>, groups: Members, id: string, info: GroupInfo)
    requires OneLineBots(bots) && HasBot(bots, groups, id) && LastAlone(groups, id, info)
    ensures AlwaysFollows(bots, groups, id) <==> CutWell(bots, groups, id, Last(info.groupMembers))
  {
    var ms := info.groupMembers;
    EmptyLineLast(bots, groups, id, Last(ms));
    if CutWell(bots, groups, id, Last(ms)) {
      forall s: State, name: string, running: bool | s.groups.Keys == bots && name in bots
        ensures Follows(AfterUpdate(s, name, running, groups, id), groups, id)
      {
        CutWellFollows(s, name, running, groups, id, info);
      }
    } else if !CutNameOk(bots, groups, id, Last(ms), Behind(ms)) {
      WrongNameMissed(bots, groups, id, info);
    } else {
      var j :| 0 <= j < |Behind(ms)| && !Harmless(PyStrip(Behind(ms)[j]), bots, groups, id);
      HarmMissed(bots, groups, id, info, j);
    }
  }

  lemma OneLineFollows(bots: set<string>, groups: Members, id: string)
    requires WellFormed(groups) && NoSemicolons(groups) && id != "" && ';' !in id && OneLine(id)
    requires OneLineNames(Roster(groups, id))
    ensures AlwaysFollows(bots, groups, id)
  {
    forall s: State, name: string, running: bool | s.groups.Keys == bots && name in bots
      ensures Follows(AfterUpdate(s, name, running, groups, id), groups, id)
    {
      CacheMatchesContainer(s, name, running, groups, id);
    }
  }

  /** The controller follows the updates of a group with a bot in it, whatever it had cached, exactly
      when no member's name has a line break or the last member's alone has one and it is cut
      well. */
  lemma FollowsExactly(bots: set<string>, groups: Members, id: string)
    requires OneLineBots(bots) && HasBot(bots, groups, id)
    requires WellFormed(groups) && NoSemicolons(groups) && id != "" && ';' !in id && OneLine(id)
    ensures AlwaysFollows(bots, groups, id) <==> ReadWell(bots, groups, id)
  {
    var roster := Roster(groups, id);
    if OneLineNames(roster) {
      OneLineFollows(bots, groups, id);
    } else {
      TwoMembers(bots, groups, id);
      UpdateIs(groups, id);
      if OneLineNames(Front(roster)) && GoodEntry(Cut(Last(roster))) {
        BrokenIsLast(roster);
        FollowsCut(bots, groups, id, InfoById(groups, id));
      } else {
        CutMissed(bots, groups, id, InfoById(groups, id));
      }
    }
  }

  lemma BrokenIsLast(ms: Members)
    requires ms != [] && OneLineNames(Front(ms)) && !OneLineNames(ms)
    ensures !OneLine(Last(ms).name)
  {
    FrontLast(ms);
  }

  // ------------------------------------------------------------------------- two inputs

  /** When the leader's name holds a break, a bot of the group that is not cached in it yet is not
      cached there afterwards either, whichever bot prints. */
  lemma BrokenLeaderMissed(s: State, name: string, running: bool, groups: Members, id: string, b: string)
    requires name in s.groups && b in s.groups && OneLine(b) && GroupOf(groups, b) == id && s.groups[b] != InGroup(id)
    requires WellFormed(groups) && NoSemicolons(groups) && id != "" && ';' !in id && OneLine(id)
    requires Roster(groups, id) != [] && !OneLine(Roster(groups, id)[0].name)
    ensures !Follows(AfterUpdate(s, name, running, groups, id), groups, id)
  {
    LeaderCut(groups, id, b);
    NothingListed(s, name, running, groups, id, InfoById(groups, id), b);
    assert AfterUpdate(s, name, running, groups, id).groups[b] != InGroup(id);
  }

  lemma LeaderCut(groups: Members, id: string, b: string)
    requires OneLine(b) && GroupOf(groups, b) == id
    requires WellFormed(groups) && NoSemicolons(groups) && id != "" && ';' !in id && OneLine(id)
    requires Roster(groups, id) != [] && !OneLine(Roster(groups, id)[0].name)
    ensures Update(groups, id, InfoById(groups, id)) && !OneLineNames(Front(Roster(groups, id)))
    ensures !OneLineNames(Roster(groups, id))
  {
    var roster := Roster(groups, id);
    assert roster[0] in roster && HasBot({b}, groups, id);
    TwoMembers({b}, groups, id);
    UpdateIs(groups, id);
    assert Front(roster)[0] == roster[0] && roster[0] in Front(roster);
  }

  const BOT := "TestBot01"
  const GROUP := "group_1"

  /** `leader` has started a group and `member` has joined it. */
  function Pair(leader: string, member: string): Members {
    [NewMember(leader, GROUP, true, 0), NewMember(member, GROUP, false, 0)]
  }

  lemma PairIsGroup(leader: string, member: string)
    requires leader != member && ';' !in leader && ';' !in member
    ensures var ms := Pair(leader, member);
      && WellFormed(ms) && NoSemicolons(ms) && Roster(ms, GROUP) == ms
      && GroupOf(ms, leader) == GROUP && GroupOf(ms, member) == GROUP
  {
    var ms := Pair(leader, member);
    PairLeads(leader, member);
    PairSizes(ms);
    PairIds(leader, member);
  }

  lemma PairLeads(leader: string, member: string)
    ensures FirstLeads(Pair(leader, member)) && Roster(Pair(leader, member), GROUP) == Pair(leader, member)
  {
    var ms := Pair(leader, member);
    assert Front(ms) == [ms[0]] && Front([ms[0]]) == [] && Roster([ms[0]], GROUP) == [ms[0]];
  }

  lemma PairIds(leader: string, member: string)
    requires leader != member
    ensures var ms := Pair(leader, member); UniqueNames(ms) && GroupOf(ms, leader) == GROUP && GroupOf(ms, member) == GROUP
  {
    var ms := Pair(leader, member);
    assert ms[0].name == leader && ms[1].name == member;
    IndexUnique(ms, 0);
    IndexUnique(ms, 1);
  }

  lemma PairSizes(ms: Members)
    requires |ms| == 2 && ms[0].groupId == ms[1].groupId == GROUP
    ensures SizesOk(ms)
  {
    forall id ensures |Roster(ms, id)| <= 2 {
      assert Front(Front(ms)) == [] && |Roster(Front(ms), id)| <= 1;
    }
  }

  lemma BotIsBot()
    ensures BOT in BotNames("TestBot") && OneLineBots(BotNames("TestBot")) && OneLine(GROUP)
  {
    assert BOT == "TestBot" + "01";
    BotNamesAreOneLine("TestBot");
  }

  /** The leader's name is cut: the bot that joined it is not cached in the group. */
  lemma CutLeaderMissed()
    ensures !AlwaysFollows(BotNames("TestBot"), Pair("a\nb", BOT), GROUP)
  {
    var groups, bots := Pair("a\nb", BOT), BotNames("TestBot");
    BotIsBot();
    assert "a\nb"[1] == '\n';
    PairIsGroup("a\nb", BOT);
    BrokenLeaderMissed(Blank(bots), BOT, true, groups, GROUP, BOT);
  }

  /** The last member's name is cut, but what the first line holds of it passes for an entry. */
  lemma CutMemberRead()
    ensures AlwaysFollows(BotNames("TestBot"), Pair(BOT, "x,1\ny"), GROUP)
  {
    var groups, bots := Pair(BOT, "x,1\ny"), BotNames("TestBot");
    BotIsBot();
    assert "x,1\ny"[3] == '\n';
    PairIsGroup(BOT, "x,1\ny");
    GoodCut(bots, groups, Last(groups));
    FollowsExactly(bots, groups, GROUP);
  }

  lemma GoodCut(bots: set<string>, groups: Members, m: GroupMember)
    requires m.name == "x,1\ny" && m.isOnline && "x" !in bots
    ensures CutWell(bots, groups, GROUP, m)
  {
    assert Entry(m) == "x,1" + ['\n'] + "y,1";
    CutAtBreak("x,1", '\n', "y,1");
    UnixOneLine("y,1");
    SplitWhole("y,1", '\n');
    assert EntryLines(m) == ["x,1"] + ["y,1"];
    assert RStrip("x,1") == "x,1" && PyStrip("y,1") == "y,1";
    assert FindLast("x,1", ',') == 1 && "x,1"[2..] == "1" && "x,1"[..1] == "x";
    assert Harmless("y,1", bots, groups, GROUP);
  }
}
