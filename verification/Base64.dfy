/**
 Base64 (RFC 4648, section 4), and the last step of the handshake digest: five 32-bit words
 cut into 24-bit groups, without going through bytes.
 */
module Base64 {
  import opened Bits
  import opened Sha1
  import opened Sha1InPlace

  /** The Base64 alphabet. */
  const UPPER := "ABCDEFGHIJKLMNOPQRSTUVWXYZ"
  const LOWER := "abcdefghijklmnopqrstuvwxyz"
  const OTHERS := "0123456789+/"
  const TABLE := UPPER + LOWER + OTHERS

  function Char(v: nat): (c: char)
    requires v < 64
    ensures c != '='
  {
    if v < 26 then ('A' as nat + v) as char
    else if v < 52 then ('a' as nat + (v - 26)) as char
    else if v < 62 then ('0' as nat + (v - 52)) as char
    else if v == 62 then '+' else '/'
  }

  function Value(c: char): (v: nat)
    ensures v < 64
  {
    if 'A' <= c <= 'Z' then c as nat - 'A' as nat
    else if 'a' <= c <= 'z' then c as nat - 'a' as nat + 26
    else if '0' <= c <= '9' then c as nat - '0' as nat + 52
    else if c == '+' then 62 else 63
  }

  lemma UpperTable(v: nat)
    requires v < 26
    ensures UPPER[v] == Char(v) && LOWER[v] == Char(v + 26)
  {
  }

  /** `Char` is the table lookup of the code. */
  lemma CharIsTable(v: nat)
    requires v < 64
    ensures |TABLE| == 64 && TABLE[v] == Char(v)
  {
    if v < 26 {
      UpperTable(v);
    } else if v < 52 {
      UpperTable(v - 26);
    } else {
      assert OTHERS[v - 52] == Char(v);
    }
  }

  lemma ValueOfChar(v: nat)
    requires v < 64
    ensures Value(Char(v)) == v
  {
  }

  // ---------------------------------------------------------------- definition

  /** The four characters of a 24-bit group. */
  function GroupChars(g: nat): (s: string)
    ensures |s| == 4
  {
    [Char(g / 64 / 64 / 64 % 64), Char(g / 64 / 64 % 64), Char(g / 64 % 64), Char(g % 64)]
  }

  function GroupOf(b0: byte, b1: byte, b2: byte): (g: nat)
    ensures g < 0x100_0000
  {
    0x1_0000 * b0 as nat + 0x100 * b1 as nat + b2 as nat
  }

  function Encode(b: Bytes): string {
    if |b| == 0 then ""
    else if |b| == 1 then GroupChars(GroupOf(b[0], 0, 0))[..2] + "=="
    else if |b| == 2 then GroupChars(GroupOf(b[0], b[1], 0))[..3] + "="
    else GroupChars(GroupOf(b[0], b[1], b[2])) + Encode(b[3..])
  }

  function GroupValue(c0: char, c1: char, c2: char, c3: char): (g: nat)
    ensures g < 0x100_0000
  {
    0x4_0000 * Value(c0) + 0x1000 * Value(c1) + 64 * Value(c2) + Value(c3)
  }

  function GroupBytes(g: nat): Bytes
    requires g < 0x100_0000
  {
    [(g / 256 / 256) as byte, (g / 256 % 256) as byte, (g % 256) as byte]
  }

  /** Decodes groups of four characters; '=' counts the bytes missing from the last one. */
  function Decode(s: string): Bytes {
    if |s| < 4 then []
    else if s[2] == '=' then GroupBytes(GroupValue(s[0], s[1], 'A', 'A'))[..1]
    else if s[3] == '=' then GroupBytes(GroupValue(s[0], s[1], s[2], 'A'))[..2]
    else GroupBytes(GroupValue(s[0], s[1], s[2], s[3])) + Decode(s[4..])
  }

  // ---------------------------------------------------------------- round trip

  lemma Div64(x: nat, q: nat, r: nat)
    requires x == 64 * q + r && r < 64
    ensures x / 64 == q && x % 64 == r
  {
  }

  lemma Div256(x: nat, q: nat, r: nat)
    requires x == 256 * q + r && r < 256
    ensures x / 256 == q && x % 256 == r
  {
  }

  lemma SplitGroup(g: nat)
    requires g < 0x100_0000
    ensures 0x4_0000 * (g / 64 / 64 / 64 % 64) + 0x1000 * (g / 64 / 64 % 64) + 64 * (g / 64 % 64) + g % 64 == g
  {
    var x := g / 64;
    var y := x / 64;
    var z := y / 64;
    assert g == 64 * x + g % 64 && x == 64 * y + x % 64 && y == 64 * z + y % 64;
    assert z < 64;
  }

  lemma GroupRoundTrip(b0: byte, b1: byte, b2: byte)
    ensures var s := GroupChars(GroupOf(b0, b1, b2));
            GroupBytes(GroupValue(s[0], s[1], s[2], s[3])) == [b0, b1, b2]
  {
    var g := GroupOf(b0, b1, b2);
    GroupReadBack(g);
    Div256(g, 256 * b0 as nat + b1 as nat, b2 as nat);
    Div256(256 * b0 as nat + b1 as nat, b0 as nat, b1 as nat);
  }

  lemma GroupReadBack(g: nat)
    requires g < 0x100_0000
    ensures var s := GroupChars(g); GroupValue(s[0], s[1], s[2], s[3]) == g
  {
    ValueOfChar(g / 64 / 64 / 64 % 64);
    ValueOfChar(g / 64 / 64 % 64);
    ValueOfChar(g / 64 % 64);
    ValueOfChar(g % 64);
    SplitGroup(g);
  }

  /** Characters that a shorter last group does not use stand for zero. */
  lemma UnusedChars(b0: byte, b1: byte)
    ensures GroupChars(GroupOf(b0, b1, 0))[3] == 'A'
    ensures GroupChars(GroupOf(b0, 0, 0))[2] == GroupChars(GroupOf(b0, 0, 0))[3] == 'A'
  {
    Div64(GroupOf(b0, b1, 0), 1024 * b0 as nat + 4 * b1 as nat, 0);
    Div64(GroupOf(b0, 0, 0), 1024 * b0 as nat, 0);
    Div64(1024 * b0 as nat, 16 * b0 as nat, 0);
  }

  /** Decoding undoes encoding, for any number of bytes. */
  lemma {:induction false} RoundTrip(b: Bytes)
    ensures Decode(Encode(b)) == b
    decreases |b|
  {
    if |b| == 1 {
      GroupRoundTrip(b[0], 0, 0);
      UnusedChars(b[0], 0);
      LastGroup(b);
    } else if |b| == 2 {
      GroupRoundTrip(b[0], b[1], 0);
      UnusedChars(b[0], b[1]);
      LastGroup(b);
    } else if |b| > 2 {
      GroupRoundTrip(b[0], b[1], b[2]);
      RoundTrip(b[3..]);
      var s := GroupChars(GroupOf(b[0], b[1], b[2]));
      assert Encode(b)[..4] == s && Encode(b)[4..] == Encode(b[3..]);
      assert Decode(Encode(b)) == [b[0], b[1], b[2]] + b[3..];
    }
  }

  lemma LastGroup(b: Bytes)
    requires 1 <= |b| <= 2
    ensures var s := Encode(b); var g := GroupChars(GroupOf(b[0], if |b| == 2 then b[1] else 0, 0));
            && |s| == 4 && s[0] == g[0] && s[1] == g[1]
            && (|b| == 1 ==> s[2] == '=') && (|b| == 2 ==> s[2] == g[2] && s[3] == '=')
  {
  }

  // ------------------------------------------------------------ the digest text

  function WordBytes(w: word): (b: Bytes)
    ensures |b| == 4
  {
    [ByteOf(w, 3), ByteOf(w, 2), ByteOf(w, 1), ByteOf(w, 0)]
  }

  /** The 20 bytes of a digest. */
  function DigestBytes(h: Registers): (b: Bytes)
    ensures |b| == 20
  {
    WordBytes(h.a) + WordBytes(h.b) + WordBytes(h.c) + WordBytes(h.d) + WordBytes(h.e)
  }

  /** The code's seven groups; bits above the low 24 are ignored when characters are picked. */
  function Triples(h: Registers): (t: seq<nat>)
    ensures |t| == 7
  {
    [h.a as nat / 0x100,
     (h.a as nat * 0x1_0000) % WORD_RANGE + h.b as nat / 0x1_0000,
     (h.b as nat * 0x100) % WORD_RANGE + h.c as nat / 0x100_0000,
     h.c as nat,
     h.d as nat / 0x100,
     (h.d as nat * 0x1_0000) % WORD_RANGE + h.e as nat / 0x1_0000,
     (h.e as nat * 0x100) % WORD_RANGE]
  }

  /** The four characters of triple `t`, written at `p`. */
  method PutTriple(a: array<char>, p: nat, t: nat)
    requires p + 4 <= a.Length
    modifies a
    ensures a[..p + 4] == old(a[..p]) + GroupChars(t)
  {
    var v0, v1, v2, v3 := t / 64 / 64 / 64 % 64, t / 64 / 64 % 64, t / 64 % 64, t % 64;
    CharIsTable(v0);
    CharIsTable(v1);
    CharIsTable(v2);
    CharIsTable(v3);
    a[p], a[p + 1], a[p + 2], a[p + 3] := TABLE[v0], TABLE[v1], TABLE[v2], TABLE[v3];
  }

  /** The characters of a run of groups. */
  function Flat(groups: seq<nat>): (s: string)
    ensures |s| == 4 * |groups|
  {
    if groups == [] then "" else Flat(groups[..|groups| - 1]) + GroupChars(groups[|groups| - 1])
  }

  method Base64Digest(h: Registers) returns (out: string)
    ensures out == Encode(DigestBytes(h)) && |out| == 28
  {
    var triples := Triples(h);
    var a := new char[28](_ => 'A');
    for i := 0 to 7
      invariant a[..4 * i] == Flat(triples[..i])
    {
      PutTriple(a, 4 * i, triples[i]);
      assert triples[..i + 1] == triples[..i] + [triples[i]];
      FlatSnoc(triples[..i], triples[i]);
    }
    assert triples[..7] == triples && a[..28] == a[..];
    ghost var groups := a[..];
    a[27] := '=';
    out := a[..];
    assert out == groups[27 := '='];
    DigestText(h, out);
  }

  lemma FlatSnoc(groups: seq<nat>, g: nat)
    ensures Flat(groups + [g]) == Flat(groups) + GroupChars(g)
  {
    assert (groups + [g])[..|groups|] == groups;
  }

  function Low24(x: nat): nat {
    x % 0x100_0000
  }

  lemma LowIs(x: nat, q: nat, g: nat)
    requires x == 0x100_0000 * q + g && g < 0x100_0000
    ensures Low24(x) == g
  {
  }

  lemma LowChars(x: nat, g: nat)
    requires Low24(x) == g
    ensures GroupChars(x) == GroupChars(g)
  {
    HighBitsIgnored(x, x / 0x100_0000, g);
  }

  /** Bits above the low 24 do not show. */
  lemma HighBitsIgnored(x: nat, q: nat, g: nat)
    requires x == 0x100_0000 * q + g && g < 0x100_0000
    ensures GroupChars(x) == GroupChars(g)
  {
    var g1 := g / 64;
    var g2 := g1 / 64;
    var g3 := g2 / 64;
    Div64(x, 0x4_0000 * q + g1, g % 64);
    Div64(0x4_0000 * q + g1, 0x1000 * q + g2, g1 % 64);
    Div64(0x1000 * q + g2, 64 * q + g3, g2 % 64);
    Div64(64 * q + g3, q, g3);
  }

  lemma DigestText(h: Registers, out: string)
    requires out == Flat(Triples(h))[27 := '=']
    ensures out == Encode(DigestBytes(h))
  {
    TriplesAreGroups(h);
    TextOfGroups(Triples(h), DigestBytes(h));
  }

  /** Seven groups that agree with the bytes in their low 24 bits, and the padding character. */
  lemma TextOfGroups(t: seq<nat>, b: Bytes)
    requires |t| == 7 && |b| == 20
    requires LowGroups(t, b)
    requires Low24(t[6]) == GroupOf(b[18], b[19], 0)
    ensures Flat(t)[27 := '='] == Encode(b)
  {
    PrefixText(t, b, 6);
    var last := GroupChars(GroupOf(b[18], b[19], 0));
    LowChars(t[6], GroupOf(b[18], b[19], 0));
    assert t == t[..6] + [t[6]];
    FlatSnoc(t[..6], t[6]);
    assert Encode(b[18..]) == last[..3] + "=";
    assert (Flat(t[..6]) + last)[27 := '='] == Flat(t[..6]) + (last[..3] + "=");
  }

  ghost predicate LowGroups(t: seq<nat>, b: Bytes)
    requires |t| == 7 && |b| == 20
  {
    forall k :: 0 <= k < 6 ==> Low24(t[k]) == GroupOf(b[3 * k], b[3 * k + 1], b[3 * k + 2])
  }

  lemma Assoc(x: string, y: string, z: string)
    ensures x + (y + z) == (x + y) + z
  {
  }

  lemma FlatStep(t: seq<nat>, i: nat, g: nat)
    requires i < |t| && Low24(t[i]) == g
    ensures Flat(t[..i + 1]) == Flat(t[..i]) + GroupChars(g)
  {
    LowChars(t[i], g);
    assert t[..i + 1] == t[..i] + [t[i]];
    FlatSnoc(t[..i], t[i]);
  }

  lemma PrefixStep(t: seq<nat>, b: Bytes, i: nat)
    requires |t| == 7 && |b| == 20 && i < 6 && LowGroups(t, b)
    ensures Flat(t[..i]) + Encode(b[3 * i..]) == Flat(t[..i + 1]) + Encode(b[3 * i + 3..])
  {
    var g, rest := GroupOf(b[3 * i], b[3 * i + 1], b[3 * i + 2]), Encode(b[3 * i + 3..]);
    EncodeStep(b, 3 * i);
    FlatStep(t, i, g);
    Assoc(Flat(t[..i]), GroupChars(g), rest);
  }

  /** Encoding starts with the characters of the first `k` groups. */
  lemma {:induction false} PrefixText(t: seq<nat>, b: Bytes, k: nat)
    requires |t| == 7 && |b| == 20 && k <= 6 && LowGroups(t, b)
    ensures Encode(b) == Flat(t[..k]) + Encode(b[3 * k..])
  {
    if k == 0 {
      assert b[0..] == b;
    } else {
      PrefixText(t, b, k - 1);
      PrefixStep(t, b, k - 1);
      assert 3 * (k - 1) + 3 == 3 * k;
    }
  }

  lemma EncodeStep(b: Bytes, i: nat)
    requires i + 3 <= |b|
    ensures Encode(b[i..]) == GroupChars(GroupOf(b[i], b[i + 1], b[i + 2])) + Encode(b[i + 3..])
  {
    assert b[i..][3..] == b[i + 3..];
  }

  lemma ModWord(x: nat, q: nat, r: nat)
    requires x == WORD_RANGE * q + r && r < WORD_RANGE
    ensures x % WORD_RANGE == r
  {
  }

  /** A word and its bytes, most significant first, and what the shifts of the code leave of it. */
  lemma WordParts(w: word)
    ensures var b := WordBytes(w); var b0, b1, b2, b3 := b[0] as nat, b[1] as nat, b[2] as nat, b[3] as nat;
            && w as nat == 0x100_0000 * b0 + 0x1_0000 * b1 + 0x100 * b2 + b3
            && w as nat / 0x100 == 0x1_0000 * b0 + 0x100 * b1 + b2
            && w as nat / 0x1_0000 == 0x100 * b0 + b1
            && w as nat / 0x100_0000 == b0
            && (w as nat * 0x1_0000) % WORD_RANGE == 0x100_0000 * b2 + 0x1_0000 * b3
            && (w as nat * 0x100) % WORD_RANGE == 0x100_0000 * b1 + 0x1_0000 * b2 + 0x100 * b3
  {
    BytesOfWord(w);
    var b := WordBytes(w);
    var b0, b1, b2, b3 := b[0] as nat, b[1] as nat, b[2] as nat, b[3] as nat;
    ModWord(w as nat * 0x1_0000, 0x100 * b0 + b1, 0x100_0000 * b2 + 0x1_0000 * b3);
    ModWord(w as nat * 0x100, b0, 0x100_0000 * b1 + 0x1_0000 * b2 + 0x100 * b3);
    Shift16(w as nat, 0x100 * b0 + b1, 0x100 * b2 + b3);
    Shift24(w as nat, b0, 0x1_0000 * b1 + 0x100 * b2 + b3);
  }

  lemma Shift16(x: nat, q: nat, r: nat)
    requires x == 0x1_0000 * q + r && r < 0x1_0000
    ensures x / 0x1_0000 == q
  {
  }

  lemma Shift24(x: nat, q: nat, r: nat)
    requires x == 0x100_0000 * q + r && r < 0x100_0000
    ensures x / 0x100_0000 == q
  {
  }

  lemma TriplesAreGroups(h: Registers)
    ensures var b := DigestBytes(h); var t := Triples(h);
            LowGroups(t, b) && Low24(t[6]) == GroupOf(b[18], b[19], 0)
  {
    var t := Triples(h);
    var a, b, c, d, e := WordBytes(h.a), WordBytes(h.b), WordBytes(h.c), WordBytes(h.d), WordBytes(h.e);
    assert Low24(t[0]) == GroupOf(a[0], a[1], a[2]) by { FirstTriple(h.a); }
    assert Low24(t[1]) == GroupOf(a[3], b[0], b[1]) by { SecondTriple(h.a, h.b); }
    assert Low24(t[2]) == GroupOf(b[2], b[3], c[0]) by { ThirdTriple(h.b, h.c); }
    assert Low24(t[3]) == GroupOf(c[1], c[2], c[3]) by { FourthTriple(h.c); }
    assert Low24(t[4]) == GroupOf(d[0], d[1], d[2]) by { FirstTriple(h.d); }
    assert Low24(t[5]) == GroupOf(d[3], e[0], e[1]) by { SecondTriple(h.d, h.e); }
    assert Low24(t[6]) == GroupOf(e[2], e[3], 0) by { LastTriple(h.e); }
    GroupsOfBytes(t, a, b, c, d, e);
  }

  lemma GroupsOfBytes(t: seq<nat>, a: Bytes, b: Bytes, c: Bytes, d: Bytes, e: Bytes)
    requires |t| == 7 && |a| == 4 && |b| == 4 && |c| == 4 && |d| == 4 && |e| == 4
    requires Low24(t[0]) == GroupOf(a[0], a[1], a[2])
    requires Low24(t[1]) == GroupOf(a[3], b[0], b[1])
    requires Low24(t[2]) == GroupOf(b[2], b[3], c[0])
    requires Low24(t[3]) == GroupOf(c[1], c[2], c[3])
    requires Low24(t[4]) == GroupOf(d[0], d[1], d[2])
    requires Low24(t[5]) == GroupOf(d[3], e[0], e[1])
    requires Low24(t[6]) == GroupOf(e[2], e[3], 0)
    ensures var all := a + b + c + d + e;
            LowGroups(t, all) && Low24(t[6]) == GroupOf(all[18], all[19], 0)
  {
    var all := a + b + c + d + e;
    forall k | 0 <= k < 6
      ensures Low24(t[k]) == GroupOf(all[3 * k], all[3 * k + 1], all[3 * k + 2])
    {
      assert k == 0 || k == 1 || k == 2 || k == 3 || k == 4 || k == 5;
    }
  }

  lemma FirstTriple(x: word)
    ensures var b := WordBytes(x); Low24(x as nat / 0x100) == GroupOf(b[0], b[1], b[2])
  {
    WordParts(x);
    LowIs(x as nat / 0x100, 0, GroupOf(WordBytes(x)[0], WordBytes(x)[1], WordBytes(x)[2]));
  }

  lemma SecondTriple(x: word, y: word)
    ensures var b, c := WordBytes(x), WordBytes(y);
            Low24((x as nat * 0x1_0000) % WORD_RANGE + y as nat / 0x1_0000) == GroupOf(b[3], c[0], c[1])
  {
    WordParts(x);
    WordParts(y);
    var b, c := WordBytes(x), WordBytes(y);
    LowIs((x as nat * 0x1_0000) % WORD_RANGE + y as nat / 0x1_0000, b[2] as nat, GroupOf(b[3], c[0], c[1]));
  }

  lemma ThirdTriple(x: word, y: word)
    ensures var b, c := WordBytes(x), WordBytes(y);
            Low24((x as nat * 0x100) % WORD_RANGE + y as nat / 0x100_0000) == GroupOf(b[2], b[3], c[0])
  {
    WordParts(x);
    WordParts(y);
    var b, c := WordBytes(x), WordBytes(y);
    LowIs((x as nat * 0x100) % WORD_RANGE + y as nat / 0x100_0000, b[1] as nat, GroupOf(b[2], b[3], c[0]));
  }

  lemma FourthTriple(x: word)
    ensures var b := WordBytes(x); Low24(x as nat) == GroupOf(b[1], b[2], b[3])
  {
    WordParts(x);
    LowIs(x as nat, WordBytes(x)[0] as nat, GroupOf(WordBytes(x)[1], WordBytes(x)[2], WordBytes(x)[3]));
  }

  lemma LastTriple(x: word)
    ensures var b := WordBytes(x); Low24((x as nat * 0x100) % WORD_RANGE) == GroupOf(b[2], b[3], 0)
  {
    WordParts(x);
    LowIs((x as nat * 0x100) % WORD_RANGE, WordBytes(x)[1] as nat, GroupOf(WordBytes(x)[2], WordBytes(x)[3], 0));
  }

  /** The accept value of a handshake: the encoded hash of what the buffer held. */
  method AcceptValue(wskey: array<byte>, inLen: nat) returns (out: string)
    requires wskey.Length >= PaddedLength(inLen)
    modifies wskey
    ensures out == Encode(DigestBytes(Hash(old(wskey[..inLen])))) && |out| == 28
  {
    var h := ComputeSha1(wskey, inLen);
    out := Base64Digest(h);
  }

  lemma AcceptDecodes(h: Registers)
    ensures Decode(Encode(DigestBytes(h))) == DigestBytes(h)
  {
    RoundTrip(DigestBytes(h));
  }

  /** The characters of a group are its digits to the base 64, the most significant first. */
  lemma GroupDigits(g: nat, d0: nat, d1: nat, d2: nat, d3: nat)
    requires d0 < 64 && d1 < 64 && d2 < 64 && d3 < 64 && g == 64 * (64 * (64 * d0 + d1) + d2) + d3
    ensures GroupChars(g) == [Char(d0), Char(d1), Char(d2), Char(d3)]
  {
    Div64(g, 64 * (64 * d0 + d1) + d2, d3);
    Div64(64 * (64 * d0 + d1) + d2, 64 * d0 + d1, d2);
    Div64(64 * d0 + d1, d0, d1);
  }

  /** The examples of RFC 4648, section 10: groups of one byte, of two, and a whole one. */
  lemma RfcExamples(f: byte, o: byte)
    requires f == 0x66 && o == 0x6f
    ensures Encode([f]) == "Zg==" && Encode([f, o]) == "Zm8=" && Encode([f, o, o]) == "Zm9v"
  {
    GroupDigits(GroupOf(f, 0, 0), 25, 32, 0, 0);
    GroupDigits(GroupOf(f, o, 0), 25, 38, 60, 0);
    GroupDigits(GroupOf(f, o, o), 25, 38, 61, 47);
    assert [f, o, o][3..] == [];
    assert Encode([f, o, o]) == GroupChars(GroupOf(f, o, o)) + Encode([]);
  }
}
