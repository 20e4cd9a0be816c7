/**
 SHA-1 as FIPS 180-4 defines it (sections 5.1.1, 5.3.1 and 6.1.2): 80-word message
 schedule, registers that move, message padding. Words are integers modulo 2^32.
 */
module Sha1 {
  import opened Bits

  const WORD_RANGE := 0x1_0000_0000

  newtype word = x: int | 0 <= x < WORD_RANGE

  datatype Registers = Registers(a: word, b: word, c: word, d: word, e: word)

  const INITIAL := Registers(0x67452301, 0xEFCDAB89, 0x98BADCFE, 0x10325476, 0xC3D2E1F0)

  // ------------------------------------------------------------ word operations

  /** Addition modulo 2^32. */
  function Plus(x: word, y: word): word {
    ((x as nat + y as nat) % WORD_RANGE) as word
  }

  function And(x: word, y: word): word {
    Pow2Of32();
    AndBits(x as nat, y as nat, 32) as word
  }

  function Or(x: word, y: word): word {
    Pow2Of32();
    OrBits(x as nat, y as nat, 32) as word
  }

  function Xor(x: word, y: word): word {
    Pow2Of32();
    XorBits(x as nat, y as nat, 32) as word
  }

  function Not(x: word): word {
    Pow2Of32();
    NotBits(x as nat, 32) as word
  }

  /** Rotation: the low bits move up, the bits pushed out come in below. */
  function Rotl1(x: word): word {
    ((x as nat * 2) % WORD_RANGE + x as nat / 0x8000_0000) as word
  }

  function Rotl5(x: word): word {
    ((x as nat * 32) % WORD_RANGE + x as nat / 0x800_0000) as word
  }

  function Rotl30(x: word): word {
    ((x as nat * 0x4000_0000) % WORD_RANGE + x as nat / 4) as word
  }

  // --------------------------------------------------- functions and constants

  function Ch(x: word, y: word, z: word): word {
    Xor(And(x, y), And(Not(x), z))
  }

  function Parity(x: word, y: word, z: word): word {
    Xor(Xor(x, y), z)
  }

  function Maj(x: word, y: word, z: word): word {
    Xor(Xor(And(x, y), And(x, z)), And(y, z))
  }

  function F(t: nat, x: word, y: word, z: word): word {
    if t < 20 then Ch(x, y, z) else if t < 40 then Parity(x, y, z) else if t < 60 then Maj(x, y, z) else Parity(x, y, z)
  }

  function K(t: nat): word {
    if t < 20 then 0x5A827999 else if t < 40 then 0x6ED9EBA1 else if t < 60 then 0x8F1BBCDC else 0xCA62C1D6
  }

  /** Where the four constants come from: the square roots of 2, 3, 5 and 10, times 2^30. */
  lemma ConstantsAreRoots(t: nat)
    ensures var k, n := K(t) as nat, if t < 20 then 2 else if t < 40 then 3 else if t < 60 then 5 else 10;
      k * k <= n * 0x1000_0000_0000_0000 < (k + 1) * (k + 1)
  {
  }

  /** The initial hash value counts up and down: its octets, each word's last one first, are 01 23 45
      ... EF, then FE DC BA ... 10, then F0 E1 D2 C3. */
  lemma InitialCounts()
    ensures INITIAL.a == CountingWord(0x01, 0x22) && INITIAL.b == CountingWord(0x89, 0x22)
    ensures INITIAL.c == CountingWord(0xFE, -0x22) && INITIAL.d == CountingWord(0x76, -0x22)
    ensures INITIAL.e == CountingWord(0xF0, -0x0F)
  {
  }

  /** The word with octets `first`, `first + step`, ... from its low end. */
  function CountingWord(first: int, step: int): word
    requires 0 <= first <= 0xFF && 0 <= first + 3 * step <= 0xFF
  {
    (first + 0x100 * (first + step) + 0x1_0000 * (first + 2 * step) + 0x100_0000 * (first + 3 * step)) as word
  }

  /** The functions of section 4.1.1, bit by bit: choice, parity, majority, parity. */
  lemma RoundFunctionBits(t: nat, x: word, y: word, z: word, i: nat)
    requires i < 32
    ensures var (p, q, r) := (Bit(x as nat, i), Bit(y as nat, i), Bit(z as nat, i));
      Bit(F(t, x, y, z) as nat, i) <==>
        if t < 20 then (if p then q else r)
        else if 40 <= t < 60 then (p && q) || (p && r) || (q && r)
        else (p != q) != r
  {
    if t < 20 {
      ChoiceBits(x, y, z, i);
    } else if 40 <= t < 60 {
      MajorityBits(x, y, z, i);
    } else {
      XorAt(x as nat, y as nat, 32, i);
      XorAt(Xor(x, y) as nat, z as nat, 32, i);
    }
  }

  lemma ChoiceBits(x: word, y: word, z: word, i: nat)
    requires i < 32
    ensures Bit(Ch(x, y, z) as nat, i) <==> if Bit(x as nat, i) then Bit(y as nat, i) else Bit(z as nat, i)
  {
    AndAt(x as nat, y as nat, 32, i);
    NotAt(x as nat, 32, i);
    AndAt(Not(x) as nat, z as nat, 32, i);
    XorAt(And(x, y) as nat, And(Not(x), z) as nat, 32, i);
  }

  lemma MajorityBits(x: word, y: word, z: word, i: nat)
    requires i < 32
    ensures var (p, q, r) := (Bit(x as nat, i), Bit(y as nat, i), Bit(z as nat, i));
      Bit(Maj(x, y, z) as nat, i) <==> (p && q) || (p && r) || (q && r)
  {
    AndAt(x as nat, y as nat, 32, i);
    AndAt(x as nat, z as nat, 32, i);
    AndAt(y as nat, z as nat, 32, i);
    XorAt(And(x, y) as nat, And(x, z) as nat, 32, i);
    XorAt(Xor(And(x, y), And(x, z)) as nat, And(y, z) as nat, 32, i);
  }

  /** Rotation moves the high bits behind the low ones. */
  lemma RotationBy1(high: nat, low: nat)
    requires high < 2 && low < 0x8000_0000
    ensures Rotl1((high * 0x8000_0000 + low) as word) as nat == low * 2 + high
  {
    var x := high * 0x8000_0000 + low;
    assert x / 0x8000_0000 == high && x * 2 == high * WORD_RANGE + low * 2;
  }

  lemma RotationBy5(high: nat, low: nat)
    requires high < 0x20 && low < 0x800_0000
    ensures Rotl5((high * 0x800_0000 + low) as word) as nat == low * 0x20 + high
  {
    var x := high * 0x800_0000 + low;
    assert x / 0x800_0000 == high && x * 0x20 == high * WORD_RANGE + low * 0x20;
  }

  lemma RotationBy30(high: nat, low: nat)
    requires high < 0x4000_0000 && low < 4
    ensures Rotl30((high * 4 + low) as word) as nat == low * 0x4000_0000 + high
  {
    var x := high * 4 + low;
    assert x / 4 == high && x * 0x4000_0000 == high * WORD_RANGE + low * 0x4000_0000;
  }

  // -------------------------------------------------------------- computation

  /** Word `t` of the message schedule of one 16-word block. */
  function W(block: seq<word>, t: nat): word
    requires |block| == 16
  {
    if t < 16 then block[t]
    else Rotl1(Xor(Xor(Xor(W(block, t - 3), W(block, t - 8)), W(block, t - 14)), W(block, t - 16)))
  }

  function Round(r: Registers, t: nat, w: word): Registers {
    Registers(Plus(Plus(Plus(Plus(Rotl5(r.a), F(t, r.b, r.c, r.d)), r.e), K(t)), w), r.a, Rotl30(r.b), r.c, r.d)
  }

  /** The working variables after the first `n` rounds. */
  function Rounds(r: Registers, block: seq<word>, n: nat): Registers
    requires |block| == 16
  {
    if n == 0 then r else Round(Rounds(r, block, n - 1), n - 1, W(block, n - 1))
  }

  function Add(x: Registers, y: Registers): Registers {
    Registers(Plus(x.a, y.a), Plus(x.b, y.b), Plus(x.c, y.c), Plus(x.d, y.d), Plus(x.e, y.e))
  }

  function Compress(h: Registers, block: seq<word>): Registers
    requires |block| == 16
  {
    Add(h, Rounds(h, block, 80))
  }

  /** The hash value after the first `n` blocks of a padded message. */
  function HashBlocks(words: seq<word>, n: nat): Registers
    requires 16 * n <= |words|
  {
    if n == 0 then INITIAL else Compress(HashBlocks(words, n - 1), words[16 * (n - 1)..16 * n])
  }

  // ------------------------------------------------------------------ padding

  function BigEndianWord(b0: byte, b1: byte, b2: byte, b3: byte): word {
    (0x100_0000 * b0 as nat + 0x1_0000 * b1 as nat + 0x100 * b2 as nat + b3 as nat) as word
  }

  function Words(bytes: seq<byte>): (r: seq<word>)
    requires |bytes| % 4 == 0
    ensures |r| == |bytes| / 4
  {
    seq(|bytes| / 4, i requires 0 <= i < |bytes| / 4 =>
      BigEndianWord(bytes[4 * i], bytes[4 * i + 1], bytes[4 * i + 2], bytes[4 * i + 3]))
  }

  lemma RoundUp(x: nat)
    ensures (x + (64 - x % 64) % 64) % 64 == 0
    ensures (64 - x % 64) % 64 == if x % 64 == 0 then 0 else 64 - x % 64
  {
    var q, r := x / 64, x % 64;
    assert x == 64 * q + r;
    if r != 0 {
      assert x + (64 - r) == 64 * (q + 1);
    }
  }

  lemma MultipleOf64(x: nat)
    requires x % 64 == 0
    ensures x % 4 == 0 && x == 64 * (x / 64) && (x / 4) % 16 == 0
    ensures x >= 8 ==> (x - 8) % 4 == 0 && (x - 8) / 4 == x / 4 - 2
  {
    var q := x / 64;
    assert x == 64 * q && x == 4 * (16 * q);
    assert x / 4 == 16 * q;
    if x >= 8 {
      assert x - 8 == 4 * (16 * q - 2);
    }
  }

  /** Zero bytes between the 0x80 byte and the length field. */
  function ZeroCount(n: nat): (k: nat)
    ensures k < 64 && (n + 9 + k) % 64 == 0
  {
    RoundUp(n + 9);
    (64 - (n + 9) % 64) % 64
  }

  function PaddedLength(n: nat): (p: nat)
    ensures p % 64 == 0 && n + 9 <= p
  {
    n + 9 + ZeroCount(n)
  }

  function Zeros(k: nat): (r: seq<byte>)
    ensures |r| == k
  {
    seq(k, _ => 0)
  }

  /** The message, the byte 0x80 and zeros: everything but the length field. */
  function Stuffed(message: seq<byte>): (r: seq<byte>)
    ensures |r| == PaddedLength(|message|) - 8 && |r| % 4 == 0
  {
    MultipleOf64(PaddedLength(|message|));
    message + [0x80] + Zeros(ZeroCount(|message|))
  }

  /** The number of bits of an `n`-byte message, modulo 2^64, as two words, high word first. */
  function LengthWords(n: nat): (r: seq<word>)
    ensures |r| == 2
  {
    var bits := 8 * n;
    [((bits / WORD_RANGE) % WORD_RANGE) as word, (bits % WORD_RANGE) as word]
  }

  function PaddedWords(message: seq<byte>): (r: seq<word>)
    ensures |r| == PaddedLength(|message|) / 4 && |r| % 16 == 0
  {
    MultipleOf64(PaddedLength(|message|));
    Words(Stuffed(message)) + LengthWords(|message|)
  }

  function Hash(message: seq<byte>): Registers {
    HashBlocks(PaddedWords(message), |PaddedWords(message)| / 16)
  }

  /** Padding is minimal: the least multiple of 64 with room for 9 more bytes. The 60 bytes of the
      handshake fill exactly 128. */
  lemma PaddingIsMinimal(n: nat, m: nat)
    requires m % 64 == 0 && n + 9 <= m
    ensures PaddedLength(n) % 64 == 0 && n + 9 <= PaddedLength(n) <= m
    ensures PaddedLength(60) == 128
  {
    MultipleOf64(PaddedLength(n));
    MultipleOf64(m);
    var p, q := PaddedLength(n) / 64, m / 64;
    assert q < p ==> 64 * q + 64 <= 64 * p;
  }

  /** 9 to 72 bytes are appended: more than the 64 the source's comment allows for exactly when
      at least 56 bytes of the last block are taken. */
  lemma PaddingAppended(n: nat)
    ensures 9 <= PaddedLength(n) - n <= 72
    ensures PaddedLength(n) - n > 64 <==> n % 64 >= 56
  {
    var q, r := n / 64, n % 64;
    RoundUp(n + 9);
    if r >= 55 {
      Remainder(n + 9, q + 1, r - 55);
    } else {
      Remainder(n + 9, q, r + 9);
    }
  }

  lemma Remainder(x: nat, q: nat, r: nat)
    requires x == 64 * q + r && r < 64
    ensures x % 64 == r
  {
  }
}
