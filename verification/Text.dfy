/**
 Strings as the chat server, its C++ codecs and the Python controller use them:
 splitting at a delimiter, decimal integers, and ASCII case.
 */
module Text {

  // ---------------------------------------------------------------- splitting

  /** Index of the first `d` in `s` at or after `from`, or `|s|` (`std::string::find`). */
  function FindAt(s: string, d: char, from: nat): (i: nat)
    requires from <= |s|
    ensures from <= i <= |s|
    ensures i < |s| ==> s[i] == d
    ensures forall k :: from <= k < i ==> s[k] != d
    decreases |s| - from
  {
    if from == |s| || s[from] == d then from else FindAt(s, d, from + 1)
  }

  function Find(s: string, d: char): nat {
    FindAt(s, d, 0)
  }

  /** The pieces from position `from` on, keeping every empty piece. */
  function SplitAt(s: string, d: char, from: nat): (parts: seq<string>)
    requires from <= |s|
    ensures |parts| >= 1
    decreases |s| - from
  {
    var i := FindAt(s, d, from);
    if i == |s| then [s[from..]] else [s[from..i]] + SplitAt(s, d, i + 1)
  }

  /** Pieces between delimiters, keeping every empty piece (Python's `str.split`). */
  function Split(s: string, d: char): (parts: seq<string>)
    ensures |parts| >= 1
  {
    SplitAt(s, d, 0)
  }

  /** Pieces produced by a `std::getline` loop: an empty piece after the last
      delimiter is never seen. */
  function Lines(s: string, d: char): seq<string> {
    var parts := Split(s, d);
    if parts[|parts| - 1] == "" then parts[..|parts| - 1] else parts
  }

  function Join(parts: seq<string>, d: char): string {
    if parts == [] then ""
    else if |parts| == 1 then parts[0]
    else parts[0] + [d] + Join(parts[1..], d)
  }

  /** Occurrences of `d` at or after `from`. */
  function CountAt(s: string, d: char, from: nat): nat
    requires from <= |s|
    decreases |s| - from
  {
    if from == |s| then 0 else (if s[from] == d then 1 else 0) + CountAt(s, d, from + 1)
  }

  function Count(s: string, d: char): nat {
    CountAt(s, d, 0)
  }

  ghost predicate AllFree(parts: seq<string>, d: char) {
    forall i :: 0 <= i < |parts| ==> d !in parts[i]
  }

  lemma {:induction false} FindShift(pre: string, t: string, d: char, k: nat)
    requires k <= |t|
    ensures FindAt(pre + t, d, |pre| + k) == |pre| + FindAt(t, d, k)
    decreases |t| - k
  {
    if k < |t| && t[k] != d {
      FindShift(pre, t, d, k + 1);
    }
  }

  lemma {:induction false} SplitShift(pre: string, t: string, d: char, k: nat)
    requires k <= |t|
    ensures SplitAt(pre + t, d, |pre| + k) == SplitAt(t, d, k)
    decreases |t| - k
  {
    FindShift(pre, t, d, k);
    var i := FindAt(t, d, k);
    SliceShift(pre, t, k, i);
    if i < |t| {
      SplitShift(pre, t, d, i + 1);
    }
  }

  lemma SliceShift(pre: string, t: string, k: nat, i: nat)
    requires k <= i <= |t|
    ensures (pre + t)[|pre| + k..|pre| + i] == t[k..i]
    ensures (pre + t)[|pre| + k..] == t[k..]
  {
  }

  lemma {:induction false} CountShift(pre: string, t: string, d: char, k: nat)
    requires k <= |t|
    ensures CountAt(pre + t, d, |pre| + k) == CountAt(t, d, k)
    decreases |t| - k
  {
    if k < |t| {
      CountShift(pre, t, d, k + 1);
    }
  }

  lemma SplitHead(p: string, rest: string, d: char)
    requires d !in p
    ensures Split(p + [d] + rest, d) == [p] + Split(rest, d)
  {
    var s := p + [d] + rest;
    assert s[|p|] == d && s[0..|p|] == p;
    assert forall k :: 0 <= k < |p| ==> s[k] == p[k];
    assert FindAt(s, d, 0) == |p|;
    SplitShift(p + [d], rest, d, 0);
  }

  lemma SplitWhole(p: string, d: char)
    requires d !in p
    ensures Split(p, d) == [p]
  {
    assert FindAt(p, d, 0) == |p| && p[0..] == p;
  }

  lemma {:induction false} SplitJoin(parts: seq<string>, d: char)
    requires parts != [] && AllFree(parts, d)
    ensures Split(Join(parts, d), d) == parts
  {
    if |parts| == 1 {
      SplitWhole(parts[0], d);
    } else {
      var tail := parts[1..];
      assert AllFree(tail, d);
      SplitJoin(tail, d);
      SplitHead(parts[0], Join(tail, d), d);
      assert parts == [parts[0]] + tail;
    }
  }

  lemma {:induction false} CountAppendAt(s: string, t: string, d: char, from: nat)
    requires from <= |s|
    ensures CountAt(s + t, d, from) == CountAt(s, d, from) + Count(t, d)
    decreases |s| - from
  {
    if from == |s| {
      CountShift(s, t, d, 0);
    } else {
      CountAppendAt(s, t, d, from + 1);
    }
  }

  lemma CountAppend(s: string, t: string, d: char)
    ensures Count(s + t, d) == Count(s, d) + Count(t, d)
  {
    CountAppendAt(s, t, d, 0);
  }

  /** Counting one piece at a time. */
  lemma {:induction false} CountPastFirst(s: string, d: char, from: nat)
    requires from <= |s|
    ensures var i := FindAt(s, d, from);
            CountAt(s, d, from) == if i == |s| then 0 else 1 + CountAt(s, d, i + 1)
    decreases |s| - from
  {
    if from < |s| && s[from] != d {
      CountPastFirst(s, d, from + 1);
    }
  }

  lemma CountZero(s: string, d: char)
    requires Count(s, d) == 0
    ensures d !in s
  {
    CountPastFirst(s, d, 0);
  }

  /** Splitting yields one piece more than there are delimiters. */
  lemma {:induction false} SplitCountAt(s: string, d: char, from: nat)
    requires from <= |s|
    ensures |SplitAt(s, d, from)| == 1 + CountAt(s, d, from)
    decreases |s| - from
  {
    CountPastFirst(s, d, from);
    if FindAt(s, d, from) < |s| {
      SplitCountAt(s, d, FindAt(s, d, from) + 1);
    }
  }

  lemma SplitCount(s: string, d: char)
    ensures |Split(s, d)| == 1 + Count(s, d)
  {
    SplitCountAt(s, d, 0);
  }

  /** The pieces when one text follows another: the last of the one and the first of the other
      are one piece. */
  function Glued(a: seq<string>, b: seq<string>): seq<string>
    requires a != [] && b != []
  {
    a[..|a| - 1] + [a[|a| - 1] + b[0]] + b[1..]
  }

  lemma GluedCons(x: string, a: seq<string>, b: seq<string>)
    requires a != [] && b != []
    ensures Glued([x] + a, b) == [x] + Glued(a, b)
  {
    assert ([x] + a)[..|a|] == [x] + a[..|a| - 1];
  }

  lemma GluedSingle(whole: seq<string>, parts: seq<string>, x: string, y: string, rest: seq<string>)
    requires whole == [x + y] + rest && parts == [y] + rest
    ensures whole == Glued([x], parts)
  {
  }

  lemma {:induction false} FindAppend(s: string, t: string, d: char, from: nat)
    requires from <= |s|
    ensures FindAt(s + t, d, from) == (if FindAt(s, d, from) < |s| then FindAt(s, d, from) else |s| + FindAt(t, d, 0))
    decreases |s| - from
  {
    if from == |s| {
      FindShift(s, t, d, 0);
    } else if s[from] != d {
      FindAppend(s, t, d, from + 1);
    }
  }

  lemma SliceAcross(s: string, t: string, i: nat, j: nat)
    requires i <= |s| && j <= |t|
    ensures (s + t)[i..|s| + j] == s[i..] + t[0..j]
  {
  }

  lemma SliceOfFirst(s: string, t: string, i: nat, j: nat)
    requires i <= j <= |s|
    ensures (s + t)[i..j] == s[i..j]
  {
  }

  lemma CutUnfolds(s: string, d: char, from: nat, i: nat)
    requires from <= |s| && FindAt(s, d, from) == i < |s|
    ensures SplitAt(s, d, from) == [s[from..i]] + SplitAt(s, d, i + 1)
  {
  }

  lemma CutAcross(s: string, t: string, d: char, from: nat, j: nat)
    requires from <= |s| && FindAt(s, d, from) == |s| && FindAt(t, d, 0) == j < |t|
    ensures SplitAt(s + t, d, from) == [(s + t)[from..|s| + j]] + SplitAt(t, d, j + 1)
  {
    FindAppend(s, t, d, from);
    SplitShift(s, t, d, j + 1);
  }

  lemma SplitAcross(s: string, t: string, d: char, from: nat)
    requires from <= |s| && FindAt(s, d, from) == |s| && FindAt(t, d, 0) < |t|
    ensures SplitAt(s + t, d, from) == Glued([s[from..]], SplitAt(t, d, 0))
  {
    var j := FindAt(t, d, 0);
    CutAcross(s, t, d, from, j);
    SliceAcross(s, t, from, j);
    CutUnfolds(t, d, 0, j);
    GluedSingle(SplitAt(s + t, d, from), SplitAt(t, d, 0), s[from..], t[0..j], SplitAt(t, d, j + 1));
  }

  lemma SplitNowhere(s: string, t: string, d: char, from: nat)
    requires from <= |s| && FindAt(s, d, from) == |s| && FindAt(t, d, 0) == |t|
    ensures SplitAt(s + t, d, from) == Glued([s[from..]], SplitAt(t, d, 0))
  {
    FindAppend(s, t, d, from);
    assert (s + t)[from..] == s[from..] + t[0..];
  }

  lemma SplitBefore(s: string, t: string, d: char, from: nat, i: nat, rest: seq<string>)
    requires from <= |s| && FindAt(s, d, from) == i < |s| && rest != [] && SplitAt(s + t, d, i + 1) == rest
    ensures SplitAt(s + t, d, from) == [s[from..i]] + rest
  {
    FindAppend(s, t, d, from);
    CutUnfolds(s + t, d, from, i);
    SliceOfFirst(s, t, from, i);
  }

  lemma {:induction false} SplitAppendAt(s: string, t: string, d: char, from: nat)
    requires from <= |s|
    ensures SplitAt(s + t, d, from) == Glued(SplitAt(s, d, from), SplitAt(t, d, 0))
    decreases |s| - from
  {
    var i := FindAt(s, d, from);
    if i < |s| {
      SplitAppendAt(s, t, d, i + 1);
      SplitBefore(s, t, d, from, i, Glued(SplitAt(s, d, i + 1), SplitAt(t, d, 0)));
      CutUnfolds(s, d, from, i);
      GluedCons(s[from..i], SplitAt(s, d, i + 1), SplitAt(t, d, 0));
    } else if FindAt(t, d, 0) < |t| {
      SplitAcross(s, t, d, from);
    } else {
      SplitNowhere(s, t, d, from);
    }
  }

  lemma SplitAppend(s: string, t: string, d: char)
    ensures Split(s + t, d) == Glued(Split(s, d), Split(t, d))
  {
    SplitAppendAt(s, t, d, 0);
  }

  /** The last piece is empty exactly when nothing is left or the text ends in a delimiter. */
  lemma {:induction false} SplitLast(s: string, d: char, from: nat)
    requires from <= |s|
    ensures var parts := SplitAt(s, d, from);
            parts[|parts| - 1] == "" <==> from == |s| || s[|s| - 1] == d
    decreases |s| - from
  {
    var i := FindAt(s, d, from);
    if i < |s| {
      SplitLast(s, d, i + 1);
      assert SplitAt(s, d, from) == [s[from..i]] + SplitAt(s, d, i + 1);
    }
  }

  /** No piece holds the delimiter. */
  lemma {:induction false} PiecesFree(s: string, d: char, from: nat)
    requires from <= |s|
    ensures AllFree(SplitAt(s, d, from), d)
    decreases |s| - from
  {
    var i := FindAt(s, d, from);
    if i < |s| {
      PiecesFree(s, d, i + 1);
    }
  }

  /** A character that is not in the text is in none of its pieces. */
  lemma {:induction false} PiecesWithout(s: string, d: char, c: char, from: nat)
    requires from <= |s| && c !in s
    ensures AllFree(SplitAt(s, d, from), c)
    decreases |s| - from
  {
    var i := FindAt(s, d, from);
    assert c !in s[from..i] && c !in s[from..];
    if i < |s| {
      PiecesWithout(s, d, c, i + 1);
    }
  }

  /** Index of the last `d` in `s`, or -1 (`std::string::rfind`). */
  function FindLast(s: string, d: char): (i: int)
    ensures -1 <= i < |s|
    ensures 0 <= i ==> s[i] == d
    ensures forall k :: i < k < |s| ==> s[k] != d
  {
    FindLastBefore(s, d, |s|)
  }

  function FindLastBefore(s: string, d: char, end: nat): (i: int)
    requires end <= |s|
    ensures -1 <= i < end
    ensures 0 <= i ==> s[i] == d
    ensures forall k :: i < k < end ==> s[k] != d
  {
    if end == 0 then -1 else if s[end - 1] == d then end - 1 else FindLastBefore(s, d, end - 1)
  }

  // ---------------------------------------------------------- decimal integers

  const INT_MIN := -0x8000_0000
  const INT_MAX := 0x7fff_ffff

  /** C++ `int`. */
  type int32 = x: int | INT_MIN <= x <= INT_MAX

  predicate IsDigit(c: char) { '0' <= c <= '9' }

  function DigitValue(c: char): nat
    requires IsDigit(c)
  {
    c as nat - '0' as nat
  }

  function DigitChar(n: nat): (c: char)
    requires n < 10
    ensures IsDigit(c) && DigitValue(c) == n
  {
    ('0' as nat + n) as char
  }

  ghost predicate AllDigits(s: string) {
    forall i :: 0 <= i < |s| ==> IsDigit(s[i])
  }

  /** Decimal digits of `n`, most significant first. */
  function PrintNat(n: nat): (s: string)
    ensures |s| >= 1 && AllDigits(s)
  {
    if n < 10 then [DigitChar(n)] else PrintNat(n / 10) + [DigitChar(n % 10)]
  }

  /** `std::to_string`. */
  function PrintInt(n: int): (s: string)
    ensures |s| >= 1
  {
    if n < 0 then "-" + PrintNat(-n) else PrintNat(n)
  }

  /** White space as C's `isspace` and Python's `str.strip` see it in ASCII. */
  predicate IsSpace(c: char) {
    c == ' ' || '\t' <= c <= '\r'
  }

  /** Length of the longest prefix of digits. */
  function DigitRun(s: string): (k: nat)
    ensures k <= |s| && AllDigits(s[..k])
    ensures k < |s| ==> !IsDigit(s[k])
  {
    if s != "" && IsDigit(s[0]) then
      var k := DigitRun(s[1..]);
      assert s[..k + 1] == [s[0]] + s[1..][..k];
      k + 1
    else 0
  }

  function ReadDigits(s: string): nat
    requires AllDigits(s)
  {
    if s == "" then 0 else 10 * ReadDigits(s[..|s| - 1]) + DigitValue(s[|s| - 1])
  }

  lemma {:induction false} DigitsRoundTrip(n: nat)
    ensures ReadDigits(PrintNat(n)) == n
  {
    if n >= 10 {
      DigitsRoundTrip(n / 10);
      var s := PrintNat(n);
      assert s[..|s| - 1] == PrintNat(n / 10);
    }
  }

  lemma {:induction false} DigitRunAll(s: string)
    requires AllDigits(s)
    ensures DigitRun(s) == |s|
  {
    if s != "" {
      DigitRunAll(s[1..]);
    }
  }

  lemma PrintIntFree(n: int, d: char)
    requires !IsDigit(d) && d != '-'
    ensures d !in PrintInt(n)
  {
    if n < 0 {
      assert AllDigits(PrintNat(-n));
    } else {
      assert AllDigits(PrintNat(n));
    }
  }

  lemma PrintIntEndsInDigit(n: int)
    ensures IsDigit(PrintInt(n)[|PrintInt(n)| - 1])
  {
    if n < 0 {
      var s := PrintNat(-n);
      assert AllDigits(s);
      assert ("-" + s)[|s|] == s[|s| - 1];
    } else {
      assert AllDigits(PrintNat(n));
    }
  }

  // -------------------------------------------------------------- ASCII case

  function LowerChar(c: char): char {
    if 'A' <= c <= 'Z' then (c as nat + 32) as char else c
  }

  /** `ToLower` of the chat library, in the "C" locale. */
  function ToLower(s: string): (r: string)
    ensures |r| == |s|
    ensures forall i :: 0 <= i < |s| ==> r[i] == LowerChar(s[i])
  {
    seq(|s|, i requires 0 <= i < |s| => LowerChar(s[i]))
  }

  /** What `c_str()` lets a C function see: the text up to the first NUL. */
  function CStr(s: string): string {
    s[..Find(s, '\0')]
  }

  /** `strcasecmp(a.c_str(), b.c_str()) == 0`. */
  predicate SameIgnoringCase(a: string, b: string) {
    ToLower(CStr(a)) == ToLower(CStr(b))
  }
}
