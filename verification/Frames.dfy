/**
 WebSocket frames (RFC 6455, section 5.2): the bytes the sender writes for a
 frame and what the receiver reads at the front of a byte stream. Masks and
 shifts of an unsigned byte are written as remainders and quotients.
 */
module Frames {
  import opened Bits

  const OPCODE_CONT: byte := 0
  const OPCODE_CLOSE: byte := 8

  datatype Frame = Frame(fin: bool, opcode: byte, payload: Bytes)

  /** A masking key, when the frame is masked. */
  datatype Masking = Unmasked | Masked(key: Bytes)

  // --------------------------------------------------------------- big-endian

  function Pow256(k: nat): (p: nat)
    ensures p >= 1
  {
    if k == 0 then 1 else 256 * Pow256(k - 1)
  }

  /** The `k` low bytes of `n`, most significant first. */
  function BigEndian(n: nat, k: nat): (r: Bytes)
    ensures |r| == k
  {
    if k == 0 then [] else BigEndian(n / 256, k - 1) + [(n % 256) as byte]
  }

  function FromBigEndian(s: Bytes): (n: nat)
    ensures n < Pow256(|s|)
  {
    if s == [] then 0 else 256 * FromBigEndian(s[..|s| - 1]) + s[|s| - 1] as nat
  }

  lemma FromBigEndianSnoc(s: Bytes, b: byte)
    ensures FromBigEndian(s + [b]) == 256 * FromBigEndian(s) + b as nat
  {
    assert (s + [b])[..|s|] == s;
  }

  lemma {:induction false} BigEndianRoundTrip(n: nat, k: nat)
    requires n < Pow256(k)
    ensures FromBigEndian(BigEndian(n, k)) == n
  {
    if k > 0 {
      BigEndianRoundTrip(n / 256, k - 1);
      FromBigEndianSnoc(BigEndian(n / 256, k - 1), (n % 256) as byte);
    }
  }

  lemma {:induction false} TopByteZero(n: nat, k: nat)
    requires k >= 1 && n < Pow256(k - 1)
    ensures BigEndian(n, k)[0] == 0
  {
    if k > 1 {
      TopByteZero(n / 256, k - 1);
    }
  }

  // ------------------------------------------------------------------ masking

  function Xor(a: byte, b: byte): byte {
    Pow2Of8();
    XorBits(a as nat, b as nat, 8) as byte
  }

  lemma XorByteTwice(a: byte, k: byte)
    ensures Xor(Xor(a, k), k) == a
  {
    Pow2Of8();
    XorTwice(a as nat, k as nat, 8);
  }

  /** XOR with the repeated key (RFC 6455, section 5.3). */
  function Mask(masking: Masking, payload: Bytes): (r: Bytes)
    requires masking.Masked? ==> |masking.key| == 4
    ensures |r| == |payload|
  {
    match masking
    case Unmasked => payload
    case Masked(key) => seq(|payload|, i requires 0 <= i < |payload| => Xor(payload[i], key[i % 4]))
  }

  /** Unmasking undoes masking, for every key. */
  lemma MaskTwice(masking: Masking, payload: Bytes)
    requires masking.Masked? ==> |masking.key| == 4
    ensures Mask(masking, Mask(masking, payload)) == payload
  {
    if masking.Masked? {
      forall i | 0 <= i < |payload|
        ensures Mask(masking, Mask(masking, payload))[i] == payload[i]
      {
        XorByteTwice(payload[i], masking.key[i % 4]);
      }
    }
  }

  lemma XorOfZero(z: byte, k: byte)
    requires z == 0
    ensures Xor(z, k) == k
  {
    Pow2Of8();
    ZeroXor(k as nat, 8);
  }

  /** Which octet of the key meets which octet of the payload: masking zeros shows the key. */
  lemma MaskOfZeros(key: Bytes, zeros: Bytes)
    requires |key| == 4 && zeros == [0, 0, 0, 0]
    ensures Mask(Masked(key), zeros) == key
  {
    forall i | 0 <= i < 4 ensures Mask(Masked(key), zeros)[i] == key[i] {
      XorOfZero(zeros[i], key[i]);
    }
  }

  /** The key starts over after every fourth octet. */
  lemma MaskAppend(masking: Masking, a: Bytes, b: Bytes)
    requires (masking.Masked? ==> |masking.key| == 4) && |a| % 4 == 0
    ensures Mask(masking, a + b) == Mask(masking, a) + Mask(masking, b)
  {
    if masking.Masked? {
      forall i | 0 <= i < |a + b|
        ensures Mask(masking, a + b)[i] == (Mask(masking, a) + Mask(masking, b))[i]
      {
        if i >= |a| {
          assert i % 4 == (i - |a|) % 4;
        }
      }
    }
  }

  /** Masking flips exactly the bits it flips in zeros: every bit of the payload octet is combined
      with the same bit of the key octet. */
  lemma MaskBits(key: Bytes, payload: Bytes, i: nat, j: nat)
    requires |key| == 4 && i < |payload| && j < 8
    ensures Bit(Mask(Masked(key), payload)[i] as nat, j) <==> (Bit(payload[i] as nat, j) != Bit(key[i % 4] as nat, j))
  {
    XorAt(payload[i] as nat, key[i % 4] as nat, 8, j);
  }

  // ----------------------------------------------------------------- encoding

  /** Length field: 7 bits, or 126 and 16 bits, or 127 and 64 bits. */
  function LengthField(n: nat): (r: (byte, Bytes))
    ensures r.0 < 128
  {
    if n < 126 then (n as byte, [])
    else if n < 65536 then (126, BigEndian(n, 2))
    else (127, BigEndian(n, 8))
  }

  /** Opcode in the low four bits, FIN in the top bit. */
  function FirstByte(fin: bool, opcode: byte): byte {
    opcode % 16 + (if fin then 128 else 0)
  }

  function SecondByte(masked: bool, length: byte): byte
    requires length < 128
  {
    (if masked then 128 else 0) + length
  }

  function Header(f: Frame, masking: Masking): Bytes {
    var length := LengthField(|f.payload|);
    [FirstByte(f.fin, f.opcode), SecondByte(masking.Masked?, length.0)] + length.1
    + (if masking.Masked? then masking.key else [])
  }

  function Encode(f: Frame, masking: Masking): Bytes
    requires masking.Masked? ==> |masking.key| == 4
  {
    Header(f, masking) + Mask(masking, f.payload)
  }

  /** Whether a length field of seven bits and `extended` more octets can hold `n`. */
  predicate Holds(extended: nat, n: nat) {
    match extended
    case 0 => n <= 125
    case 2 => n <= 0xffff
    case 8 => n <= 0x7fff_ffff_ffff_ffff
    case _ => false
  }

  /** The length takes as few octets as can hold it (RFC 6455, section 5.2). */
  lemma ShortestForm(n: nat, extended: nat)
    requires n <= 0x7fff_ffff_ffff_ffff
    ensures Holds(|LengthField(n).1|, n)
    ensures Holds(extended, n) ==> |LengthField(n).1| <= extended
  {
  }

  lemma TwoOctets(n: nat)
    requires n < 0x1_0000
    ensures BigEndian(n, 2) == [(n / 0x100) as byte, (n % 0x100) as byte]
  {
    assert BigEndian(n / 0x100, 1) == BigEndian(n / 0x100 / 0x100, 0) + [(n / 0x100 % 0x100) as byte];
  }

  lemma {:induction false} ZeroOctets(k: nat)
    ensures BigEndian(0, k) == seq(k, _ => 0)
  {
    if k > 0 {
      ZeroOctets(k - 1);
    }
  }

  lemma EightOctets(n: nat)
    requires n < 0x100_0000
    ensures BigEndian(n, 8) == [0, 0, 0, 0, 0, (n / 0x1_0000) as byte, (n / 0x100 % 0x100) as byte, (n % 0x100) as byte]
  {
    var n1, n2 := n / 0x100, n / 0x1_0000;
    assert n1 / 0x100 == n2 && n2 / 0x100 == 0;
    ZeroOctets(5);
    assert BigEndian(n2, 6) == BigEndian(0, 5) + [n2 as byte];
    assert BigEndian(n1, 7) == BigEndian(n2, 6) + [(n1 % 0x100) as byte];
    assert BigEndian(n, 8) == BigEndian(n1, 7) + [(n % 0x100) as byte];
  }

  /** The octets behind the first at both ends of each form. */
  lemma LengthOctets(f: Frame)
    ensures |f.payload| == 125 ==> Header(f, Unmasked)[1..] == [125]
    ensures |f.payload| == 126 ==> Header(f, Unmasked)[1..] == [126, 0, 126]
    ensures |f.payload| == 65535 ==> Header(f, Unmasked)[1..] == [126, 255, 255]
    ensures |f.payload| == 65536 ==> Header(f, Unmasked)[1..] == [127, 0, 0, 0, 0, 0, 1, 0, 0]
  {
    var n := |f.payload|;
    if n == 126 || n == 65535 {
      TwoOctets(n);
    } else if n == 65536 {
      EightOctets(n);
    }
  }

  // ----------------------------------------------------------------- scanning

  /** What the front of a received byte string amounts to. */
  datatype Scanned =
    | NeedHeader
    | NeedPayload(total: nat)
    | Whole(frame: Frame, total: nat)

  function ExtendedLength(b: byte): nat {
    if b % 128 == 126 then 2 else if b % 128 == 127 then 8 else 0
  }

  function HeaderLength(b: byte): (n: nat)
    ensures 2 <= n <= 14
  {
    2 + ExtendedLength(b) + (if b >= 128 then 4 else 0)
  }

  /** The payload length announced by a complete header; the top bit of the 64-bit form is ignored. */
  function PayloadLength(s: Bytes): nat
    requires |s| >= 2 && |s| >= HeaderLength(s[1])
  {
    var length := s[1] % 128;
    if length == 126 then FromBigEndian(s[2..4])
    else if length == 127 then FromBigEndian([s[2] % 128] + s[3..10])
    else length as nat
  }

  function MaskingOf(s: Bytes): (m: Masking)
    requires |s| >= 2 && |s| >= HeaderLength(s[1])
    ensures m.Masked? ==> |m.key| == 4
  {
    var h := HeaderLength(s[1]);
    if s[1] >= 128 then Masked(s[h - 4..h]) else Unmasked
  }

  /** `handleOneWSMsg` up to the point where the frame is complete and unmasked. */
  function Scan(s: Bytes): Scanned {
    if |s| < 2 || |s| < HeaderLength(s[1]) then NeedHeader
    else
      var h := HeaderLength(s[1]);
      var total := h + PayloadLength(s);
      if |s| < total then NeedPayload(total)
      else Whole(Frame(s[0] >= 128, s[0] % 16, Mask(MaskingOf(s), s[h..total])), total)
  }

  // ------------------------------------------------------------- prefix property

  /** More input does not change what has been recognised. */
  lemma ScanExtends(s: Bytes, more: Bytes)
    ensures Scan(s).Whole? ==> Scan(s + more) == Scan(s) && 2 <= Scan(s).total <= |s|
    ensures Scan(s).NeedPayload? ==> |s| < Scan(s).total && !Scan(s + more).NeedHeader? && Scan(s + more).total == Scan(s).total
    ensures Scan(s).NeedHeader? ==> |s| < 14
  {
    var t := s + more;
    if |s| >= 2 && |s| >= HeaderLength(s[1]) {
      var h := HeaderLength(s[1]);
      HeaderExtends(s, more);
      var total := h + PayloadLength(s);
      if |s| >= total {
        assert t[h..total] == s[h..total];
      }
    }
  }

  lemma HeaderExtends(s: Bytes, more: Bytes)
    requires |s| >= 2 && |s| >= HeaderLength(s[1])
    ensures (s + more)[0] == s[0] && (s + more)[1] == s[1]
    ensures PayloadLength(s + more) == PayloadLength(s)
    ensures MaskingOf(s + more) == MaskingOf(s)
  {
    var t := s + more;
    var h := HeaderLength(s[1]);
    if s[1] % 128 == 126 {
      assert t[2..4] == s[2..4];
    }
    if s[1] % 128 == 127 {
      assert t[2] == s[2] && t[3..10] == s[3..10];
    }
    if s[1] >= 128 {
      assert t[h - 4..h] == s[h - 4..h];
    }
  }

  // ------------------------------------------------------------------ round trip

  const MAX_PAYLOAD := 0x1_0000_0000

  lemma HeaderShape(f: Frame, masking: Masking)
    requires masking.Masked? ==> |masking.key| == 4
    ensures var h := Header(f, masking); var length := LengthField(|f.payload|);
            && |h| == 2 + |length.1| + (if masking.Masked? then 4 else 0)
            && h[0] == FirstByte(f.fin, f.opcode)
            && h[1] % 128 == length.0 && (h[1] >= 128 <==> masking.Masked?)
            && h[2..2 + |length.1|] == length.1
            && (masking.Masked? ==> h[|h| - 4..] == masking.key)
            && ExtendedLength(h[1]) == |length.1|
  {
    var h := Header(f, masking);
    var length := LengthField(|f.payload|);
    assert h[1] == SecondByte(masking.Masked?, length.0);
    assert h[2..2 + |length.1|] == length.1;
  }

  lemma LengthRead(h: Bytes, n: nat)
    requires n < MAX_PAYLOAD && |h| >= 2 && |h| >= HeaderLength(h[1])
    requires var length := LengthField(n);
             |h| >= 2 + |length.1| && h[1] % 128 == length.0 && h[2..2 + |length.1|] == length.1
    ensures PayloadLength(h) == n
  {
    if 126 <= n < 65536 {
      assert Pow256(1) == 256 && Pow256(2) == 65536;
      BigEndianRoundTrip(n, 2);
    } else if 65536 <= n {
      assert Pow256(4) == MAX_PAYLOAD;
      assert Pow256(7) >= MAX_PAYLOAD && Pow256(8) == 256 * Pow256(7);
      BigEndianRoundTrip(n, 8);
      TopByteZero(n, 8);
      assert h[2..10][0] == h[2] && h[3..10] == h[2..10][1..];
      assert [h[2] % 128] + h[3..10] == h[2..10];
    }
  }

  lemma HeaderFields(f: Frame, masking: Masking)
    requires |f.payload| < MAX_PAYLOAD && (masking.Masked? ==> |masking.key| == 4)
    ensures var h := Header(f, masking);
            && |h| >= 2 && HeaderLength(h[1]) == |h| && h[0] == FirstByte(f.fin, f.opcode)
            && PayloadLength(h) == |f.payload| && MaskingOf(h) == masking
  {
    HeaderShape(f, masking);
    LengthRead(Header(f, masking), |f.payload|);
  }

  lemma ScanEncoded(f: Frame, masking: Masking)
    requires |f.payload| < MAX_PAYLOAD && f.opcode < 16 && (masking.Masked? ==> |masking.key| == 4)
    ensures Scan(Encode(f, masking)) == Whole(f, |Encode(f, masking)|)
  {
    var h := Header(f, masking);
    var body := Mask(masking, f.payload);
    HeaderFields(f, masking);
    HeaderExtends(h, body);
    MaskTwice(masking, f.payload);
    assert (h + body)[|h|..|h + body|] == body;
    ScanIs(h + body, |h|, f);
  }

  lemma ScanIs(t: Bytes, h: nat, f: Frame)
    requires 2 <= h <= |t| && HeaderLength(t[1]) == h && t[0] == FirstByte(f.fin, f.opcode) && f.opcode < 16
    requires h + PayloadLength(t) == |t| && Mask(MaskingOf(t), t[h..|t|]) == f.payload
    ensures Scan(t) == Whole(f, |t|)
  {
  }

  /** The receiver reads back exactly the frame that was written, masked with any key or not,
      in each of the three length forms, whatever follows it. */
  lemma FrameRoundTrip(f: Frame, masking: Masking, rest: Bytes)
    requires |f.payload| < MAX_PAYLOAD && f.opcode < 16 && (masking.Masked? ==> |masking.key| == 4)
    ensures Scan(Encode(f, masking) + rest) == Whole(f, |Encode(f, masking)|)
  {
    ScanEncoded(f, masking);
    ScanExtends(Encode(f, masking), rest);
  }
}
