/**
 The library's SHA-1: it pads and byte-swaps the caller's buffer, keeps the message
 schedule in the 16 words of the block itself, and renames registers instead of moving
 them. Words of the buffer are read and written as a little-endian host does.
 */
module Sha1InPlace {
  import opened Bits
  import opened Sha1

  // ------------------------------------------------------------ words in memory

  /** `*(uint32_t*)(a + p)`. */
  function Load(a: seq<byte>, p: nat): word
    requires p + 4 <= |a|
  {
    BigEndianWord(a[p + 3], a[p + 2], a[p + 1], a[p])
  }

  function ByteOf(w: word, k: nat): byte
    requires k < 4
  {
    (if k == 0 then w as nat % 256
     else if k == 1 then w as nat / 0x100 % 256
     else if k == 2 then w as nat / 0x100 / 0x100 % 256
     else w as nat / 0x100 / 0x100 / 0x100) as byte
  }

  lemma BytesOfWord(w: word)
    ensures BigEndianWord(ByteOf(w, 3), ByteOf(w, 2), ByteOf(w, 1), ByteOf(w, 0)) == w
  {
  }

  /** `*(uint32_t*)(a + p) = w`. */
  method Store(a: array<byte>, p: nat, w: word)
    requires p + 4 <= a.Length
    modifies a
    ensures Load(a[..], p) == w
    ensures forall k :: 0 <= k < a.Length && !(p <= k < p + 4) ==> a[k] == old(a[k])
  {
    BytesOfWord(w);
    a[p], a[p + 1], a[p + 2], a[p + 3] := ByteOf(w, 0), ByteOf(w, 1), ByteOf(w, 2), ByteOf(w, 3);
  }

  lemma LoadSame(a: seq<byte>, b: seq<byte>, p: nat)
    requires p + 4 <= |a| && |a| == |b|
    requires forall k :: p <= k < p + 4 ==> a[k] == b[k]
    ensures Load(a, p) == Load(b, p)
  {
  }

  // -------------------------------------------------------------------- padding

  method PadInPlace(buf: array<byte>, inLen: nat) returns (total: nat)
    requires buf.Length >= PaddedLength(inLen)
    modifies buf
    ensures total == PaddedLength(inLen) - 8
    ensures buf[..total] == Stuffed(old(buf[..inLen]))
  {
    total := inLen;
    buf[total] := 0x80;
    total := total + 1;
    var padding := (64 - (total + 8) % 64) % 64;
    for i := 0 to padding
      invariant total == inLen + 1 + i
      invariant forall k :: 0 <= k < inLen ==> buf[k] == old(buf[k])
      invariant buf[inLen] == 0x80
      invariant forall k :: inLen < k < total ==> buf[k] == 0
    {
      buf[total] := 0;
      total := total + 1;
    }
  }

  /** `w = be32toh(w)` for every word below `total`: each group of four bytes is reversed. */
  method SwapWords(buf: array<byte>, total: nat)
    requires total % 4 == 0 && total <= buf.Length
    modifies buf
    ensures forall j :: 0 <= j < total / 4 ==> Load(buf[..], 4 * j) == Words(old(buf[..total]))[j]
  {
    ghost var was := buf[..];
    for j := 0 to total / 4
      invariant forall i :: 0 <= i < j ==> Load(buf[..], 4 * i) == Words(was[..total])[i]
      invariant forall k :: 4 * j <= k < buf.Length ==> buf[k] == was[k]
    {
      var p := 4 * j;
      ghost var before := buf[..];
      buf[p], buf[p + 1], buf[p + 2], buf[p + 3] := buf[p + 3], buf[p + 2], buf[p + 1], buf[p];
      forall i | 0 <= i < j
        ensures Load(buf[..], 4 * i) == Load(before, 4 * i)
      {
        LoadSame(buf[..], before, 4 * i);
      }
      assert Load(buf[..], p) == Words(was[..total])[j];
    }
  }

  /** Padding, byte swap and length field: the buffer then holds the padded message as words. */
  method Prepare(buf: array<byte>, inLen: nat) returns (total: nat)
    requires buf.Length >= PaddedLength(inLen)
    modifies buf
    ensures total == PaddedLength(inLen)
    ensures forall j :: 0 <= j < |PaddedWords(old(buf[..inLen]))| ==> Load(buf[..], 4 * j) == PaddedWords(old(buf[..inLen]))[j]
  {
    ghost var message := buf[..inLen];
    total := PadInPlace(buf, inLen);
    MultipleOf64(PaddedLength(inLen));
    SwapWords(buf, total);
    ghost var swapped := buf[..];
    Store(buf, total, ((inLen / 0x2000_0000) % WORD_RANGE) as word);
    ghost var high := buf[..];
    Store(buf, total + 4, ((inLen * 8) % WORD_RANGE) as word);
    LoadSame(buf[..], high, total);
    LengthField(inLen);
    ghost var words := Words(Stuffed(message));
    forall j | 0 <= j < |words|
      ensures Load(buf[..], 4 * j) == words[j]
    {
      LoadSame(buf[..], swapped, 4 * j);
    }
    PreparedWords(buf[..], words, LengthWords(inLen)[0], LengthWords(inLen)[1], total);
    assert PaddedWords(message) == words + [LengthWords(inLen)[0], LengthWords(inLen)[1]];
    total := total + 8;
  }

  lemma PreparedWords(a: seq<byte>, words: seq<word>, high: word, low: word, total: nat)
    requires total == 4 * |words| && total + 8 <= |a|
    requires forall j :: 0 <= j < |words| ==> Load(a, 4 * j) == words[j]
    requires Load(a, total) == high && Load(a, total + 4) == low
    ensures forall j :: 0 <= j < |words| + 2 ==> Load(a, 4 * j) == (words + [high, low])[j]
  {
    forall j | 0 <= j < |words| + 2
      ensures Load(a, 4 * j) == (words + [high, low])[j]
    {
      assert j < |words| || 4 * j == total || 4 * j == total + 4;
    }
  }

  lemma LengthField(n: nat)
    ensures LengthWords(n) == [((n / 0x2000_0000) % WORD_RANGE) as word, ((n * 8) % WORD_RANGE) as word]
  {
    assert (8 * n) / WORD_RANGE == n / 0x2000_0000;
  }

  // --------------------------------------------------------------- one block

  /** Slot `t % 16` of the ring holds word `t` of the schedule for the 16 words in reach at round `i`. */
  ghost predicate Ring(a: seq<byte>, off: nat, block: seq<word>, i: nat)
    requires off + 64 <= |a| && |block| == 16
  {
    forall t :: RingStart(i) <= t < RingStart(i) + 16 ==> Load(a, off + 4 * (t % 16)) == W(block, t)
  }

  function RingStart(i: nat): nat {
    if i < 16 then 0 else i - 16
  }

  /** The five registers, renamed: register x of round `i` lives in `h[(4 * i + x) % 5]`. */
  ghost predicate Renamed(h: seq<word>, i: nat, r: Registers)
    requires |h| == 5
  {
    && h[(4 * i) % 5] == r.a && h[(4 * i + 1) % 5] == r.b && h[(4 * i + 2) % 5] == r.c
    && h[(4 * i + 3) % 5] == r.d && h[(4 * i + 4) % 5] == r.e
  }

  /** The round function with its constant, as the code computes it. */
  function Mix(i: nat, b: word, c: word, d: word): word {
    if i < 40 then
      if i < 20 then Plus(Xor(And(b, Xor(c, d)), d), 0x5A827999) else Plus(Xor(Xor(b, c), d), 0x6ED9EBA1)
    else
      if i < 60 then Plus(Or(And(Or(b, c), d), And(b, c)), 0x8F1BBCDC) else Plus(Xor(Xor(b, c), d), 0xCA62C1D6)
  }

  lemma ChForm(b: word, c: word, d: word)
    ensures Xor(And(b, Xor(c, d)), d) == Ch(b, c, d)
  {
    ChoiceForm(b as nat, c as nat, d as nat, 32);
  }

  lemma MajForm(b: word, c: word, d: word)
    ensures Or(And(Or(b, c), d), And(b, c)) == Maj(b, c, d)
  {
    MajorityForm(b as nat, c as nat, d as nat, 32);
  }

  lemma MixIs(i: nat, b: word, c: word, d: word)
    ensures Mix(i, b, c, d) == Plus(F(i, b, c, d), K(i))
  {
    ChForm(b, c, d);
    MajForm(b, c, d);
  }

  lemma SumOrder(e: word, f: word, k: word, w: word, a: word)
    ensures Plus(Plus(e, Plus(f, k)), Plus(w, a)) == Plus(Plus(Plus(Plus(a, f), e), k), w)
  {
    var fk, wa, af := Plus(f, k), Plus(w, a), Plus(a, f);
    SumIs(f, k, f as nat, k as nat);
    SumIs(e, fk, e as nat, f as nat + k as nat);
    SumIs(w, a, w as nat, a as nat);
    SumIs(Plus(e, fk), wa, e as nat + (f as nat + k as nat), w as nat + a as nat);
    SumIs(a, f, a as nat, f as nat);
    SumIs(af, e, a as nat + f as nat, e as nat);
    SumIs(Plus(af, e), k, a as nat + f as nat + e as nat, k as nat);
    SumIs(Plus(Plus(af, e), k), w, a as nat + f as nat + e as nat + k as nat, w as nat);
  }

  /** `x` and `y` stand for sums that may have overflowed. */
  lemma SumIs(x: word, y: word, sx: nat, sy: nat)
    requires x as nat == sx % WORD_RANGE && y as nat == sy % WORD_RANGE
    ensures Plus(x, y) as nat == (sx + sy) % WORD_RANGE
  {
    var q, r, z := sx / WORD_RANGE, sy / WORD_RANGE, sx % WORD_RANGE + sy % WORD_RANGE;
    assert sx + sy == WORD_RANGE * (q + r + z / WORD_RANGE) + z % WORD_RANGE;
  }

  lemma RingSlots(i: nat)
    requires i >= 16
    ensures (i + 13) % 16 == (i - 3) % 16 && (i + 8) % 16 == (i - 8) % 16
    ensures (i + 2) % 16 == (i - 14) % 16 && i % 16 == (i - 16) % 16
  {
  }

  lemma RingSlotsDiffer(i: nat, t: nat)
    requires t < i < t + 16
    ensures t % 16 != i % 16
  {
  }

  /** Writing word `i` over word `i - 16` moves the ring on by one. */
  lemma RingMoves(a: seq<byte>, b: seq<byte>, off: nat, block: seq<word>, i: nat)
    requires off + 64 <= |a| && |a| == |b| && |block| == 16 && i >= 16
    requires Ring(a, off, block, i) && Load(b, off + 4 * (i % 16)) == W(block, i)
    requires forall k :: 0 <= k < |a| && !(off + 4 * (i % 16) <= k < off + 4 * (i % 16) + 4) ==> b[k] == a[k]
    ensures Ring(b, off, block, i + 1)
  {
    forall t | i - 15 <= t < i
      ensures Load(b, off + 4 * (t % 16)) == W(block, t)
    {
      RingSlotsDiffer(i, t);
      OtherSlot(a, b, off, t % 16, i % 16);
    }
  }

  lemma OtherSlot(a: seq<byte>, b: seq<byte>, off: nat, s: nat, u: nat)
    requires off + 64 <= |a| && |a| == |b| && s < 16 && u < 16 && s != u
    requires forall k :: 0 <= k < |a| && !(off + 4 * u <= k < off + 4 * u + 4) ==> b[k] == a[k]
    ensures Load(b, off + 4 * s) == Load(a, off + 4 * s)
  {
    LoadSame(b, a, off + 4 * s);
  }

  method ExtendRing(buf: array<byte>, off: nat, ghost block: seq<word>, i: nat)
    requires off + 64 <= buf.Length && |block| == 16 && Ring(buf[..], off, block, i)
    modifies buf
    ensures Load(buf[..], off + 4 * (i % 16)) == W(block, i) && Ring(buf[..], off, block, i + 1)
    ensures forall k :: 0 <= k < buf.Length && !(off <= k < off + 64) ==> buf[k] == old(buf[k])
  {
    if i >= 16 {
      ghost var was := buf[..];
      RingSlots(i);
      var w := Rotl1(Xor(Xor(Xor(Load(buf[..], off + 4 * ((i + 13) % 16)), Load(buf[..], off + 4 * ((i + 8) % 16))),
                             Load(buf[..], off + 4 * ((i + 2) % 16))), Load(buf[..], off + 4 * (i % 16))));
      assert w == W(block, i);
      Store(buf, off + 4 * (i % 16), w);
      RingMoves(was, buf[..], off, block, i);
    }
  }

  /** 80 rounds on the block at `off`, added to the hash value so far. */
  method ProcessBlock(buf: array<byte>, off: nat, h0: Registers, ghost block: seq<word>) returns (out: Registers)
    requires off + 64 <= buf.Length && |block| == 16 && Ring(buf[..], off, block, 0)
    modifies buf
    ensures out == Compress(h0, block)
    ensures forall k :: 0 <= k < buf.Length && !(off <= k < off + 64) ==> buf[k] == old(buf[k])
  {
    var h := new word[5];
    h[0], h[1], h[2], h[3], h[4] := h0.a, h0.b, h0.c, h0.d, h0.e;
    for i := 0 to 80
      invariant Renamed(h[..], i, Rounds(h0, block, i))
      invariant Ring(buf[..], off, block, i)
      invariant forall k :: 0 <= k < buf.Length && !(off <= k < off + 64) ==> buf[k] == old(buf[k])
    {
      ExtendRing(buf, off, block, i);
      OneRound(h, i, Rounds(h0, block, i), Load(buf[..], off + 4 * (i % 16)));
    }
    ghost var r := Rounds(h0, block, 80);
    RenamedAfterAll(h[..], r);
    out := Registers(Plus(h0.a, h[0]), Plus(h0.b, h[1]), Plus(h0.c, h[2]), Plus(h0.d, h[3]), Plus(h0.e, h[4]));
    assert out == Add(h0, r);
  }

  lemma RenamedAfterAll(h: seq<word>, r: Registers)
    requires |h| == 5 && Renamed(h, 80, r)
    ensures h[0] == r.a && h[1] == r.b && h[2] == r.c && h[3] == r.d && h[4] == r.e
  {
  }

  /** Five different cells hold the five registers. */
  ghost predicate Hold(h: seq<word>, a: nat, b: nat, c: nat, d: nat, e: nat, r: Registers)
    requires |h| == 5 && a < 5 && b < 5 && c < 5 && d < 5 && e < 5
  {
    h[a] == r.a && h[b] == r.b && h[c] == r.c && h[d] == r.d && h[e] == r.e
  }

  lemma Mod5(j: nat, k: nat)
    ensures (j + k) % 5 == (j % 5 + k) % 5
  {
    assert j == 5 * (j / 5) + j % 5;
  }

  lemma NextNames(j: nat)
    ensures var a, b, c, d, e := j % 5, (j + 1) % 5, (j + 2) % 5, (j + 3) % 5, (j + 4) % 5;
            && a != b && a != c && a != d && a != e && b != c && b != d && b != e && c != d && c != e && d != e
            && (j + 5) % 5 == a && (j + 6) % 5 == b && (j + 7) % 5 == c && (j + 8) % 5 == d
  {
    Mod5(j, 1);
    Mod5(j, 2);
    Mod5(j, 3);
    Mod5(j, 4);
    Mod5(j, 6);
    Mod5(j, 7);
    Mod5(j, 8);
  }

  lemma RoundSum(r: Registers, i: nat, w: word)
    ensures Plus(Plus(r.e, Mix(i, r.b, r.c, r.d)), Plus(w, Rotl5(r.a))) == Round(r, i, w).a
  {
    MixIs(i, r.b, r.c, r.d);
    SumOrder(r.e, F(i, r.b, r.c, r.d), K(i), w, Rotl5(r.a));
  }

  method OneRound(h: array<word>, i: nat, ghost r: Registers, w: word)
    requires h.Length == 5 && Renamed(h[..], i, r)
    modifies h
    ensures Renamed(h[..], i + 1, Round(r, i, w))
  {
    var j := 4 * i;
    NextNames(j);
    assert 4 * (i + 1) == j + 4;
    MixRegisters(h, i, j % 5, (j + 1) % 5, (j + 2) % 5, (j + 3) % 5, (j + 4) % 5, r, w);
  }

  /** The body of the round loop: two cells change, and every cell is renamed. */
  method MixRegisters(h: array<word>, i: nat, a: nat, b: nat, c: nat, d: nat, e: nat, ghost r: Registers, w: word)
    requires h.Length == 5 && a < 5 && b < 5 && c < 5 && d < 5 && e < 5
    requires a != b && a != c && a != d && a != e && b != c && b != d && b != e && c != d && c != e && d != e
    requires Hold(h[..], a, b, c, d, e, r)
    modifies h
    ensures Hold(h[..], e, a, b, c, d, Round(r, i, w))
  {
    RoundSum(r, i, w);
    h[e] := Plus(h[e], Mix(i, h[b], h[c], h[d]));
    h[e] := Plus(h[e], Plus(w, Rotl5(h[a])));
    h[b] := Rotl30(h[b]);
  }

  // ------------------------------------------------------------- the whole hash

  lemma BlockRing(a: seq<byte>, words: seq<word>, n: nat)
    requires 64 * (n + 1) <= |a| && 16 * (n + 1) <= |words|
    requires forall j :: 16 * n <= j < 16 * (n + 1) ==> Load(a, 4 * j) == words[j]
    ensures Ring(a, 64 * n, words[16 * n..16 * (n + 1)], 0)
  {
    var block := words[16 * n..16 * (n + 1)];
    forall t | 0 <= t < 16
      ensures Load(a, 64 * n + 4 * (t % 16)) == W(block, t)
    {
      assert t % 16 == t && 64 * n + 4 * t == 4 * (16 * n + t);
    }
  }

  /** The in-place computation is SHA-1, for messages of any length and number of blocks. */
  method ComputeSha1(buf: array<byte>, inLen: nat) returns (digest: Registers)
    requires buf.Length >= PaddedLength(inLen)
    modifies buf
    ensures digest == Hash(old(buf[..inLen]))
  {
    ghost var words := PaddedWords(buf[..inLen]);
    var total := Prepare(buf, inLen);
    MultipleOf64(total);
    var blocks := total / 64;
    assert |words| == 16 * blocks && |words| / 16 == blocks && 4 * |words| == total;
    digest := INITIAL;
    for n := 0 to blocks
      invariant digest == HashBlocks(words, n)
      invariant forall j :: 16 * n <= j < |words| ==> Load(buf[..], 4 * j) == words[j]
    {
      digest := HashOne(buf, words, n, digest);
    }
  }

  method HashOne(buf: array<byte>, ghost words: seq<word>, n: nat, h: Registers) returns (digest: Registers)
    requires 4 * |words| <= buf.Length && 16 * (n + 1) <= |words|
    requires forall j :: 16 * n <= j < |words| ==> Load(buf[..], 4 * j) == words[j]
    modifies buf
    ensures digest == Compress(h, words[16 * n..16 * (n + 1)])
    ensures forall j :: 16 * (n + 1) <= j < |words| ==> Load(buf[..], 4 * j) == words[j]
  {
    ghost var was := buf[..];
    BlockRing(buf[..], words, n);
    digest := ProcessBlock(buf, 64 * n, h, words[16 * n..16 * (n + 1)]);
    forall j | 16 * (n + 1) <= j < |words|
      ensures Load(buf[..], 4 * j) == words[j]
    {
      LoadSame(buf[..], was, 4 * j);
    }
  }
}
